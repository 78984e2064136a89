/**
 * Relational meaning of the merge statements: rows, SQL equality with NULL, and the statements' effect on a table,
 * which is a list of rows. A statement that is run again, or in another order, is compared with itself row for row.
 */
module Tables {

  datatype Value = Null | Val(n: int)
  type Column = string
  type Row = map<Column, Value>

  function Get(r: Row, c: Column): Value {
    if c in r then r[c] else Null
  }

  /** SQL `a = b`: true only between equal values that are not NULL. */
  predicate SqlEqual(a: Value, b: Value) {
    a != Null && a == b
  }

  /** Both keys are equal and free of NULL. */
  predicate SameKey(pks: seq<Column>, a: Row, b: Row) {
    forall i :: 0 <= i < |pks| ==> SqlEqual(Get(a, pks[i]), Get(b, pks[i]))
  }

  /** SQL `a.key <> b.key` is true, and not unknown: some column differs between two values. */
  predicate DistinctKey(pks: seq<Column>, a: Row, b: Row) {
    exists i :: 0 <= i < |pks| && Get(a, pks[i]) != Null && Get(b, pks[i]) != Null && Get(a, pks[i]) != Get(b, pks[i])
  }

  predicate HasKey(pks: seq<Column>, r: Row) {
    forall i :: 0 <= i < |pks| ==> Get(r, pks[i]) != Null
  }

  predicate Matches(pks: seq<Column>, r: Row, table: seq<Row>) {
    exists i :: 0 <= i < |table| && SameKey(pks, r, table[i])
  }

  function MatchOf(pks: seq<Column>, r: Row, table: seq<Row>): (s: Row)
    requires Matches(pks, r, table)
    ensures s in table && SameKey(pks, r, s)
  {
    if SameKey(pks, r, table[0]) then table[0] else MatchOf(pks, r, table[1..])
  }

  // ----- Filters and maps over tables

  function Keep(p: Row -> bool, s: seq<Row>): (r: seq<Row>)
    ensures forall x :: x in r ==> x in s && p(x)
  {
    if s == [] then [] else if p(s[0]) then [s[0]] + Keep(p, s[1..]) else Keep(p, s[1..])
  }

  function Each(f: Row -> Row, s: seq<Row>): (r: seq<Row>)
    ensures |r| == |s| && forall i :: 0 <= i < |s| ==> r[i] == f(s[i])
  {
    seq(|s|, i requires 0 <= i < |s| => f(s[i]))
  }

  lemma {:induction false} KeepAppend(p: Row -> bool, a: seq<Row>, b: seq<Row>)
    ensures Keep(p, a + b) == Keep(p, a) + Keep(p, b)
  {
    if a == [] {
      assert a + b == b;
    } else {
      assert (a + b)[1..] == a[1..] + b;
      KeepAppend(p, a[1..], b);
    }
  }

  lemma {:induction false} KeepAll(p: Row -> bool, s: seq<Row>)
    requires forall i :: 0 <= i < |s| ==> p(s[i])
    ensures Keep(p, s) == s
  {
    if s != [] {
      KeepAll(p, s[1..]);
    }
  }

  lemma {:induction false} KeepNone(p: Row -> bool, s: seq<Row>)
    requires forall i :: 0 <= i < |s| ==> !p(s[i])
    ensures Keep(p, s) == []
  {
    if s != [] {
      KeepNone(p, s[1..]);
    }
  }

  lemma {:induction false} KeepMember(p: Row -> bool, s: seq<Row>, x: Row)
    requires x in s && p(x)
    ensures x in Keep(p, s)
  {
    if x != s[0] {
      KeepMember(p, s[1..], x);
    }
  }

  /** Filters that agree on the rows of a table keep the same ones. */
  lemma {:induction false} KeepSame(p: Row -> bool, q: Row -> bool, s: seq<Row>)
    requires forall i :: 0 <= i < |s| ==> p(s[i]) == q(s[i])
    ensures Keep(p, s) == Keep(q, s)
  {
    if s != [] {
      KeepSame(p, q, s[1..]);
    }
  }

  /** Filtering a changed table, when the rows that pass are the ones `q` picks before and they do not change. */
  lemma {:induction false} KeepMapped(p: Row -> bool, q: Row -> bool, f: Row -> Row, s: seq<Row>)
    requires forall i :: 0 <= i < |s| ==> p(f(s[i])) == q(s[i]) && (q(s[i]) ==> f(s[i]) == s[i])
    ensures Keep(p, Each(f, s)) == Keep(q, s)
  {
    if s != [] {
      assert Each(f, s)[1..] == Each(f, s[1..]);
      KeepMapped(p, q, f, s[1..]);
    }
  }

  // ----- The statements

  /** `DELETE FROM target WHERE column = value`. */
  function Outside(column: Column, value: Value): Row -> bool {
    r => !SqlEqual(Get(r, column), value)
  }

  function DeleteWhere(column: Column, value: Value, target: seq<Row>): seq<Row> {
    Keep(Outside(column, value), target)
  }

  /** The columns an update sets: all staged ones but the keys. */
  function Overwrite(columns: set<Column>, pks: seq<Column>, r: Row, s: Row): Row {
    map c | c in r :: if c in columns && c !in pks then Get(s, c) else r[c]
  }

  function UpdateRow(columns: set<Column>, pks: seq<Column>, staged: seq<Row>): Row -> Row {
    r => if Matches(pks, r, staged) then Overwrite(columns, pks, r, MatchOf(pks, r, staged)) else r
  }

  /** `UPDATE target SET ... FROM staged WHERE target.pk = staged.pk`. */
  function UpdateFrom(columns: set<Column>, pks: seq<Column>, staged: seq<Row>, target: seq<Row>): seq<Row> {
    Each(UpdateRow(columns, pks, staged), target)
  }

  function Unmatched(pks: seq<Column>, table: seq<Row>): Row -> bool {
    r => !Matches(pks, r, table)
  }

  /** `INSERT INTO target SELECT ... FROM staged WHERE NOT EXISTS (target row with the same key)`. */
  function InsertMissing(pks: seq<Column>, staged: seq<Row>, target: seq<Row>): seq<Row> {
    target + Keep(Unmatched(pks, target), staged)
  }

  /** The row is in the partition, not soft-deleted, and its key is NOT IN the staged keys. */
  predicate IsMissing(pks: seq<Column>, column: Column, value: Value, soft: Column, staged: seq<Row>, r: Row) {
    && SqlEqual(Get(r, column), value)
    && Get(r, soft) == Null
    && forall i :: 0 <= i < |staged| ==> DistinctKey(pks, r, staged[i])
  }

  function StampRow(pks: seq<Column>, column: Column, value: Value, soft: Column, now: Value,
                    staged: seq<Row>): Row -> Row {
    r => if IsMissing(pks, column, value, soft, staged, r) then r[soft := now] else r
  }

  function SoftDelete(pks: seq<Column>, column: Column, value: Value, soft: Column, now: Value, staged: seq<Row>,
                      target: seq<Row>): seq<Row> {
    Each(StampRow(pks, column, value, soft, now, staged), target)
  }

  // ----- Keys

  predicate AgreeOnKey(pks: seq<Column>, a: Row, b: Row) {
    forall i :: 0 <= i < |pks| ==> Get(a, pks[i]) == Get(b, pks[i])
  }

  /** Row by row the same keys; what a statement that keeps keys does to a table. */
  predicate KeyAligned(pks: seq<Column>, s: seq<Row>, t: seq<Row>) {
    |s| == |t| && forall i :: 0 <= i < |s| ==> AgreeOnKey(pks, s[i], t[i])
  }

  ghost predicate UniqueKeys(pks: seq<Column>, table: seq<Row>) {
    forall i, j :: 0 <= i < |table| && 0 <= j < |table| && i != j ==> !SameKey(pks, table[i], table[j])
  }

  ghost predicate NoNullKeys(pks: seq<Column>, table: seq<Row>) {
    forall i :: 0 <= i < |table| ==> HasKey(pks, table[i])
  }

  lemma {:induction false} MatchAligned(pks: seq<Column>, a: Row, b: Row, table: seq<Row>)
    requires AgreeOnKey(pks, a, b)
    ensures Matches(pks, a, table) == Matches(pks, b, table)
    ensures Matches(pks, a, table) ==> MatchOf(pks, a, table) == MatchOf(pks, b, table)
  {
    if Matches(pks, a, table) && !SameKey(pks, a, table[0]) {
      assert Matches(pks, a, table[1..]) by {
        var i :| 0 <= i < |table| && SameKey(pks, a, table[i]);
        assert table[i] == table[1..][i - 1];
      }
      MatchAligned(pks, a, b, table[1..]);
    }
  }

  lemma AlignedMatches(pks: seq<Column>, r: Row, s: seq<Row>, t: seq<Row>)
    requires KeyAligned(pks, s, t)
    ensures Matches(pks, r, s) == Matches(pks, r, t)
  {
  }

  /** With unique keys a row matches at most itself. */
  lemma MatchIsSelf(pks: seq<Column>, table: seq<Row>, i: nat)
    requires i < |table| && UniqueKeys(pks, table)
    ensures Matches(pks, table[i], table) <==> HasKey(pks, table[i])
    ensures Matches(pks, table[i], table) ==> MatchOf(pks, table[i], table) == table[i]
  {
    if Matches(pks, table[i], table) {
      var s := MatchOf(pks, table[i], table);
      var j :| 0 <= j < |table| && table[j] == s;
    } else if HasKey(pks, table[i]) {
      assert SameKey(pks, table[i], table[i]);
    }
  }

  // ----- Update and insert

  lemma UpdateAligned(columns: set<Column>, pks: seq<Column>, staged: seq<Row>, target: seq<Row>)
    ensures KeyAligned(pks, UpdateFrom(columns, pks, staged, target), target)
  {
  }

  lemma UpdateRowIdempotent(columns: set<Column>, pks: seq<Column>, staged: seq<Row>, r: Row)
    ensures var f := UpdateRow(columns, pks, staged); f(f(r)) == f(r)
  {
    MatchAligned(pks, r, UpdateRow(columns, pks, staged)(r), staged);
  }

  lemma UpdateIdempotent(columns: set<Column>, pks: seq<Column>, staged: seq<Row>, target: seq<Row>)
    ensures var once := UpdateFrom(columns, pks, staged, target);
            UpdateFrom(columns, pks, staged, once) == once
  {
    forall i | 0 <= i < |target|
      ensures var f := UpdateRow(columns, pks, staged); f(f(target[i])) == f(target[i])
    {
      UpdateRowIdempotent(columns, pks, staged, target[i]);
    }
  }

  /** A staged row is what the update would make of it. */
  lemma UpdateFixesStaged(columns: set<Column>, pks: seq<Column>, staged: seq<Row>, s: Row)
    requires UniqueKeys(pks, staged) && s in staged
    ensures UpdateRow(columns, pks, staged)(s) == s
  {
    var i :| 0 <= i < |staged| && staged[i] == s;
    MatchIsSelf(pks, staged, i);
  }

  /** Update and insert commute: both orders give the updated target followed by the staged rows it lacked. */
  lemma {:induction false} UpdateOfInsert(columns: set<Column>, pks: seq<Column>, staged: seq<Row>, target: seq<Row>)
    requires UniqueKeys(pks, staged)
    ensures UpdateFrom(columns, pks, staged, InsertMissing(pks, staged, target))
         == InsertMissing(pks, staged, UpdateFrom(columns, pks, staged, target))
    ensures InsertMissing(pks, staged, UpdateFrom(columns, pks, staged, target))
         == UpdateFrom(columns, pks, staged, target) + Keep(Unmatched(pks, target), staged)
  {
    var added, updated := Keep(Unmatched(pks, target), staged), UpdateFrom(columns, pks, staged, target);
    forall i | 0 <= i < |added|
      ensures UpdateRow(columns, pks, staged)(added[i]) == added[i]
    {
      UpdateFixesStaged(columns, pks, staged, added[i]);
    }
    assert UpdateFrom(columns, pks, staged, target + added) == updated + added;
    UpdateAligned(columns, pks, staged, target);
    forall i | 0 <= i < |staged|
      ensures Unmatched(pks, updated)(staged[i]) == Unmatched(pks, target)(staged[i])
    {
      AlignedMatches(pks, staged[i], updated, target);
    }
    KeepSame(Unmatched(pks, updated), Unmatched(pks, target), staged);
  }

  /** After an insert nothing is missing any more, except staged rows with a NULL in their key: those never match. */
  lemma InsertAgain(pks: seq<Column>, staged: seq<Row>, target: seq<Row>, after: seq<Row>)
    requires pks != [] && KeyAligned(pks, after, InsertMissing(pks, staged, target))
    ensures InsertMissing(pks, staged, after) == after <==> NoNullKeys(pks, staged)
  {
    var inserted, missing := InsertMissing(pks, staged, target), Keep(Unmatched(pks, after), staged);
    forall i | 0 <= i < |staged|
      ensures Matches(pks, staged[i], after) <==> HasKey(pks, staged[i])
    {
      AlignedMatches(pks, staged[i], after, inserted);
      if HasKey(pks, staged[i]) {
        InsertedMatches(pks, staged, target, staged[i]);
      }
    }
    if NoNullKeys(pks, staged) {
      KeepNone(Unmatched(pks, after), staged);
    } else {
      var i :| 0 <= i < |staged| && !HasKey(pks, staged[i]);
      KeepMember(Unmatched(pks, after), staged, staged[i]);
      assert |after + missing| > |after|;
    }
  }

  lemma InsertedMatches(pks: seq<Column>, staged: seq<Row>, target: seq<Row>, s: Row)
    requires s in staged && HasKey(pks, s)
    ensures Matches(pks, s, InsertMissing(pks, staged, target))
  {
    var added := Keep(Unmatched(pks, target), staged);
    if Matches(pks, s, target) {
      var i :| 0 <= i < |target| && SameKey(pks, s, target[i]);
      assert (target + added)[i] == target[i];
    } else {
      KeepMember(Unmatched(pks, target), staged, s);
      var i :| 0 <= i < |added| && added[i] == s;
      assert (target + added)[|target| + i] == s && SameKey(pks, s, s);
    }
  }

  // ----- The updated target against a plain override

  /** Every row has exactly these columns. */
  ghost predicate Shaped(columns: set<Column>, table: seq<Row>) {
    forall i :: 0 <= i < |table| ==> table[i].Keys == columns
  }

  lemma OverwriteIsStaged(columns: set<Column>, pks: seq<Column>, r: Row, s: Row)
    requires r.Keys == columns && s.Keys == columns && SameKey(pks, r, s)
    ensures Overwrite(columns, pks, r, s) == s
  {
    forall c | c in columns
      ensures Overwrite(columns, pks, r, s)[c] == s[c]
    {
      if c in pks {
        var i :| 0 <= i < |pks| && pks[i] == c;
        assert SqlEqual(Get(r, pks[i]), Get(s, pks[i]));
      }
    }
  }

  /** Two filters that differ on one row only keep the same rows but for that one. */
  lemma {:induction false} KeepOneMore(p: Row -> bool, q: Row -> bool, s: seq<Row>, k: nat)
    requires k < |s| && q(s[k]) && !p(s[k])
    requires forall i :: 0 <= i < |s| && i != k ==> p(s[i]) == q(s[i])
    ensures multiset(Keep(q, s)) == multiset(Keep(p, s)) + multiset{s[k]}
  {
    if k == 0 {
      KeepSame(p, q, s[1..]);
    } else {
      KeepOneMore(p, q, s[1..], k - 1);
    }
  }

  lemma SameKeyJoins(pks: seq<Column>, a: Row, b: Row, c: Row)
    requires SameKey(pks, a, b) && SameKey(pks, a, c)
    ensures SameKey(pks, b, c)
  {
    forall i | 0 <= i < |pks|
      ensures SqlEqual(Get(b, pks[i]), Get(c, pks[i]))
    {
      assert SqlEqual(Get(a, pks[i]), Get(b, pks[i])) && SqlEqual(Get(a, pks[i]), Get(c, pks[i]));
    }
  }

  lemma SameKeySymmetric(pks: seq<Column>, a: Row, b: Row)
    requires SameKey(pks, a, b)
    ensures SameKey(pks, b, a)
  {
    forall i | 0 <= i < |pks|
      ensures SqlEqual(Get(b, pks[i]), Get(a, pks[i]))
    {
      assert SqlEqual(Get(a, pks[i]), Get(b, pks[i]));
    }
  }

  /** Only the staged match of `r` is matched by `r`, and by no other row of a table with unique keys. */
  lemma MatchIsExclusive(pks: seq<Column>, r: Row, rest: seq<Row>, staged: seq<Row>, k: nat)
    requires UniqueKeys(pks, staged) && UniqueKeys(pks, [r] + rest) && k < |staged| && SameKey(pks, r, staged[k])
    ensures !Matches(pks, staged[k], rest) && Matches(pks, staged[k], [r] + rest)
    ensures forall i :: 0 <= i < |staged| && i != k ==>
      Matches(pks, staged[i], [r] + rest) == Matches(pks, staged[i], rest)
  {
    SameKeySymmetric(pks, r, staged[k]);
    forall i | 0 <= i < |staged|
      ensures Matches(pks, staged[i], [r] + rest) == (i == k || Matches(pks, staged[i], rest))
    {
      MatchesCons(pks, staged[i], r, rest);
      if SameKey(pks, staged[i], r) {
        SameKeySymmetric(pks, staged[i], r);
        SameKeyJoins(pks, r, staged[i], staged[k]);
      }
    }
    if Matches(pks, staged[k], rest) {
      var j :| 0 <= j < |rest| && SameKey(pks, staged[k], rest[j]);
      SameKeyJoins(pks, staged[k], ([r] + rest)[0], ([r] + rest)[j + 1]);
    }
  }

  /** The row `r` takes its one staged match off the list of staged rows still to insert. */
  lemma MatchTakesOne(pks: seq<Column>, r: Row, rest: seq<Row>, staged: seq<Row>)
    requires UniqueKeys(pks, staged) && UniqueKeys(pks, [r] + rest) && Matches(pks, r, staged)
    ensures multiset(Keep(Unmatched(pks, rest), staged))
         == multiset(Keep(Unmatched(pks, [r] + rest), staged)) + multiset{MatchOf(pks, r, staged)}
  {
    var s := MatchOf(pks, r, staged);
    var k :| 0 <= k < |staged| && staged[k] == s;
    MatchIsExclusive(pks, r, rest, staged, k);
    KeepOneMore(Unmatched(pks, [r] + rest), Unmatched(pks, rest), staged, k);
  }

  lemma MatchesCons(pks: seq<Column>, s: Row, r: Row, rest: seq<Row>)
    ensures Matches(pks, s, [r] + rest) == (SameKey(pks, s, r) || Matches(pks, s, rest))
  {
    var table := [r] + rest;
    if SameKey(pks, s, r) {
      assert SameKey(pks, s, table[0]);
    } else if Matches(pks, s, rest) {
      var j :| 0 <= j < |rest| && SameKey(pks, s, rest[j]);
      assert SameKey(pks, s, table[j + 1]);
    }
  }

  lemma UnmatchedTakesNone(pks: seq<Column>, r: Row, rest: seq<Row>, staged: seq<Row>)
    requires !Matches(pks, r, staged)
    ensures Keep(Unmatched(pks, [r] + rest), staged) == Keep(Unmatched(pks, rest), staged)
  {
    forall i | 0 <= i < |staged|
      ensures Unmatched(pks, [r] + rest)(staged[i]) == Unmatched(pks, rest)(staged[i])
    {
      MatchesCons(pks, staged[i], r, rest);
      if SameKey(pks, staged[i], r) {
        SameKeySymmetric(pks, staged[i], r);
      }
    }
    KeepSame(Unmatched(pks, [r] + rest), Unmatched(pks, rest), staged);
  }

  /**
   * With unique keys on both sides, updating the matching rows and inserting the others makes the target, up to the
   * order of rows, its rows without a staged key together with all staged rows.
   */
  lemma {:induction false} UpsertOverrides(columns: set<Column>, pks: seq<Column>, staged: seq<Row>, target: seq<Row>)
    requires UniqueKeys(pks, staged) && UniqueKeys(pks, target)
    requires Shaped(columns, staged) && Shaped(columns, target)
    ensures multiset(UpdateFrom(columns, pks, staged, target)) + multiset(Keep(Unmatched(pks, target), staged))
         == multiset(Keep(Unmatched(pks, staged), target)) + multiset(staged)
  {
    if target == [] {
      KeepAll(Unmatched(pks, target), staged);
    } else {
      var r, rest := target[0], target[1..];
      assert UniqueKeys(pks, rest) && Shaped(columns, rest);
      UpsertOverrides(columns, pks, staged, rest);
      assert target == [r] + rest;
      assert columns == r.Keys;
      UpsertOverridesHead(columns, pks, staged, r, rest);
    }
  }

  lemma UpsertOverridesHead(columns: set<Column>, pks: seq<Column>, staged: seq<Row>, r: Row, rest: seq<Row>)
    requires UniqueKeys(pks, staged) && UniqueKeys(pks, [r] + rest) && Shaped(columns, staged) && r.Keys == columns
    requires multiset(UpdateFrom(columns, pks, staged, rest)) + multiset(Keep(Unmatched(pks, rest), staged))
          == multiset(Keep(Unmatched(pks, staged), rest)) + multiset(staged)
    ensures multiset(UpdateFrom(columns, pks, staged, [r] + rest)) + multiset(Keep(Unmatched(pks, [r] + rest), staged))
         == multiset(Keep(Unmatched(pks, staged), [r] + rest)) + multiset(staged)
  {
    UpdateHead(columns, pks, staged, r, rest);
    var updated := multiset(UpdateFrom(columns, pks, staged, rest));
    var unmatched := multiset(Keep(Unmatched(pks, staged), rest));
    var toInsert := multiset(Keep(Unmatched(pks, rest), staged));
    if Matches(pks, r, staged) {
      var s := MatchOf(pks, r, staged);
      OverwriteIsStaged(columns, pks, r, s);
      MatchTakesOne(pks, r, rest, staged);
    } else {
      UnmatchedTakesNone(pks, r, rest, staged);
      AddBothSides(r, updated, toInsert, unmatched, multiset(staged));
    }
  }

  lemma AddBothSides(r: Row, a: multiset<Row>, b: multiset<Row>, c: multiset<Row>, d: multiset<Row>)
    requires a + b == c + d
    ensures multiset{r} + a + b == multiset{r} + c + d
  {
    assert multiset{r} + a + b == multiset{r} + (a + b);
    assert multiset{r} + c + d == multiset{r} + (c + d);
  }

  lemma UpdateHead(columns: set<Column>, pks: seq<Column>, staged: seq<Row>, r: Row, rest: seq<Row>)
    ensures multiset(UpdateFrom(columns, pks, staged, [r] + rest))
         == multiset{UpdateRow(columns, pks, staged)(r)} + multiset(UpdateFrom(columns, pks, staged, rest))
    ensures Keep(Unmatched(pks, staged), [r] + rest)
         == (if Matches(pks, r, staged) then [] else [r]) + Keep(Unmatched(pks, staged), rest)
    ensures multiset(Keep(Unmatched(pks, staged), [r] + rest))
         == (if Matches(pks, r, staged) then multiset{} else multiset{r}) + multiset(Keep(Unmatched(pks, staged), rest))
  {
    assert ([r] + rest)[1..] == rest;
    assert UpdateFrom(columns, pks, staged, [r] + rest)
        == [UpdateRow(columns, pks, staged)(r)] + UpdateFrom(columns, pks, staged, rest);
  }

  // ----- Soft deletion

  predicate IsLive(soft: Column, r: Row) {
    Get(r, soft) == Null
  }

  /** The rows a soft deletion leaves alive. */
  predicate StaysLive(pks: seq<Column>, column: Column, value: Value, soft: Column, staged: seq<Row>, r: Row) {
    IsLive(soft, r) && !IsMissing(pks, column, value, soft, staged, r)
  }

  function Live(soft: Column): Row -> bool {
    r => IsLive(soft, r)
  }

  lemma SoftDeleteAligned(pks: seq<Column>, column: Column, value: Value, soft: Column, now: Value,
                          staged: seq<Row>, target: seq<Row>)
    requires soft !in pks
    ensures KeyAligned(pks, SoftDelete(pks, column, value, soft, now, staged, target), target)
  {
  }

  /** A soft deletion leaves every row with a staged key alone, so a settled table stays settled. */
  lemma SoftDeleteStaysSettled(columns: set<Column>, pks: seq<Column>, column: Column, value: Value, soft: Column,
                               now: Value, staged: seq<Row>, target: seq<Row>)
    requires soft !in pks && UpdateFrom(columns, pks, staged, target) == target
    ensures var after := SoftDelete(pks, column, value, soft, now, staged, target);
            UpdateFrom(columns, pks, staged, after) == after
  {
    var after := SoftDelete(pks, column, value, soft, now, staged, target);
    SoftDeleteAligned(pks, column, value, soft, now, staged, target);
    forall i | 0 <= i < |after|
      ensures UpdateRow(columns, pks, staged)(after[i]) == after[i]
    {
      assert UpdateFrom(columns, pks, staged, target)[i] == target[i];
      MatchAligned(pks, after[i], target[i], staged);
    }
  }

  lemma {:induction false} KeepCount(p: Row -> bool, s: seq<Row>, x: Row)
    ensures multiset(Keep(p, s))[x] == if p(x) then multiset(s)[x] else 0
  {
    if s != [] {
      assert s == [s[0]] + s[1..];
      KeepCount(p, s[1..], x);
    }
  }

  lemma KeepPermutation(p: Row -> bool, s: seq<Row>, t: seq<Row>)
    requires multiset(s) == multiset(t)
    ensures multiset(Keep(p, s)) == multiset(Keep(p, t))
  {
    forall x
      ensures multiset(Keep(p, s))[x] == multiset(Keep(p, t))[x]
    {
      KeepCount(p, s, x);
      KeepCount(p, t, x);
    }
  }
}
