/**
 * Which configurations lose an entry when service references are replaced: those with clashing keys, and no others. A
 * clash is two references in one dictionary, or a reference beside a key that already has the new name.
 */
module LostEntries {
  import opened PathSyntax
  import opened ConfigTree
  import opened PathEdits
  import opened ConfigPasses

  /** Every dictionary still has as many entries as it had, and those that were not replaced are still there. */
  ghost predicate KeepsEntries(pass: Pass, t: Tree, r: Tree)
    decreases t
  {
    match t
    case Leaf(_) => true
    case List(items) =>
      r.List? && |r.items| == |items| && forall i :: 0 <= i < |items| ==> KeepsEntries(pass, items[i], r.items[i])
    case Dict(fields) =>
      && r.Dict? && |r.fields| == |fields|
      && forall k :: k in fields && !IsSite(pass, Key(k), fields[k]) ==>
           k in r.fields && KeepsEntries(pass, fields[k], r.fields[k])
  }

  // ----- What any order of replacements leaves

  ghost predicate AnyReplaced(fields: map<string, Tree>, d: set<Path>) {
    exists k :: k in fields && [Key(k)] in d
  }

  function Unreplaced(fields: map<string, Tree>, d: set<Path>): set<string> {
    set k | k in fields && [Key(k)] !in d
  }

  /** The keys that a dictionary can have after the replacements `d`. */
  ghost function Possible(fields: map<string, Tree>, d: set<Path>): set<string> {
    Unreplaced(fields, d) + if AnyReplaced(fields, d) then {SERVICE_REF_NEW_KEY} else {}
  }

  /** The entry was neither replaced nor overwritten. */
  ghost predicate Intact(fields: map<string, Tree>, d: set<Path>, k: string) {
    k in fields && [Key(k)] !in d && (k != SERVICE_REF_NEW_KEY || !AnyReplaced(fields, d))
  }

  ghost predicate Shrunk(t: Tree, d: set<Path>, r: Tree)
    decreases t
  {
    match t
    case Leaf(_) => true
    case List(items) =>
      && r.List? && |r.items| == |items|
      && forall i :: 0 <= i < |items| ==> Shrunk(items[i], Tails(d, Index(i)), r.items[i])
    case Dict(fields) =>
      && r.Dict? && r.fields.Keys <= Possible(fields, d)
      && forall k :: Intact(fields, d, k) && k in r.fields ==> Shrunk(fields[k], Tails(d, Key(k)), r.fields[k])
  }

  lemma {:induction false} ShrunkStarts(t: Tree)
    ensures Shrunk(t, {}, t)
    decreases t
  {
    match t
    case Leaf(_) =>
    case List(items) =>
      forall i | 0 <= i < |items|
        ensures Tails({}, Index(i)) == {} && Shrunk(items[i], {}, items[i])
      {
        ShrunkStarts(items[i]);
      }
    case Dict(fields) =>
      forall k | k in fields
        ensures Tails({}, Key(k)) == {} && Shrunk(fields[k], {}, fields[k])
      {
        ShrunkStarts(fields[k]);
      }
  }

  /** Replacing at a key of the dictionary itself. */
  lemma ReplaceHere(fields: map<string, Tree>, d: set<Path>, k: string, r: Tree, value: Tree)
    requires Shrunk(Dict(fields), d, r) && k in fields && [Key(k)] !in d
    ensures SetHere(r, Key(k), SERVICE_REF_NEW_KEY, value).Some?
    ensures Shrunk(Dict(fields), d + {[Key(k)]}, SetHere(r, Key(k), SERVICE_REF_NEW_KEY, value).value)
  {
    var e := d + {[Key(k)]};
    assert [Key(k)] in e && AnyReplaced(fields, e);
    forall j | Intact(fields, e, j)
      ensures Intact(fields, d, j) && Tails(e, Key(j)) == Tails(d, Key(j))
    {
      TailsAdd(d, [Key(k)], Key(j));
    }
  }

  lemma DeeperLeavesKeys(fields: map<string, Tree>, d: set<Path>, p: Path)
    requires |p| > 1
    ensures Possible(fields, d + {p}) == Possible(fields, d)
    ensures forall k :: Intact(fields, d + {p}, k) <==> Intact(fields, d, k)
  {
    assert forall k :: [Key(k)] in d + {p} <==> [Key(k)] in d;
  }

  lemma ReplaceBelowKey(fields: map<string, Tree>, d: set<Path>, p: Path, r: Tree, child: Tree)
    requires |p| > 1 && p[0].Key? && p[0].key in fields && Shrunk(Dict(fields), d, r) && HasChild(r, p[0])
    requires Intact(fields, d, p[0].key) ==> Shrunk(fields[p[0].key], Tails(d, p[0]) + {p[1..]}, child)
    ensures Shrunk(Dict(fields), d + {p}, WithChild(r, p[0], child))
  {
    DeeperLeavesKeys(fields, d, p);
    forall k | k in fields
      ensures Tails(d + {p}, Key(k)) == if k == p[0].key then Tails(d, p[0]) + {p[1..]} else Tails(d, Key(k))
    {
      TailsAdd(d, p, Key(k));
    }
  }

  lemma ReplaceBelowIndex(items: seq<Tree>, d: set<Path>, p: Path, r: Tree, child: Tree)
    requires |p| > 1 && p[0].Index? && p[0].index < |items| && Shrunk(List(items), d, r)
    requires Shrunk(items[p[0].index], Tails(d, p[0]) + {p[1..]}, child)
    ensures Shrunk(List(items), d + {p}, WithChild(r, p[0], child))
  {
    forall i | 0 <= i < |items|
      ensures Tails(d + {p}, Index(i)) == if i == p[0].index then Tails(d, p[0]) + {p[1..]} else Tails(d, Index(i))
    {
      TailsAdd(d, p, Index(i));
    }
  }

  /** One more replacement, wherever the earlier ones have left the tree. */
  lemma {:induction false} ReplaceOneMore(t: Tree, d: set<Path>, p: Path, r: Tree, value: Tree)
    requires Shrunk(t, d, r) && p != [] && HasPath(t, p) && p[|p| - 1].Key? && p !in d
    requires SetAt(r, p, SERVICE_REF_NEW_KEY, value).Some?
    ensures Shrunk(t, d + {p}, SetAt(r, p, SERVICE_REF_NEW_KEY, value).value)
    decreases p
  {
    var s, rest := p[0], p[1..];
    if |p| == 1 {
      assert p == [s];
      ReplaceHere(t.fields, d, s.key, r, value);
    } else {
      assert p == [s] + rest;
      TailsMember(d, s, rest);
      if s.Index? || Intact(t.fields, d, s.key) {
        ReplaceOneMore(Child(t, s), Tails(d, s), rest, Child(r, s), value);
      }
      var child := SetAt(Child(r, s), rest, SERVICE_REF_NEW_KEY, value).value;
      if s.Key? {
        ReplaceBelowKey(t.fields, d, p, r, child);
      } else {
        ReplaceBelowIndex(t.items, d, p, r, child);
      }
    }
  }

  // ----- Losing nothing means no clash

  /** A dictionary that has as many entries as before had at most one replaced, which met no other key. */
  lemma NoneLostHere(pass: Pass, fields: map<string, Tree>, d: set<Path>, keys: set<string>)
    requires pass.ResolveRefs? && keys <= Possible(fields, d) && |keys| == |fields|
    requires forall k :: k in fields ==> ([Key(k)] in d <==> IsSite(pass, Key(k), fields[k]))
    ensures OneReference(pass, fields)
  {
    if AnyReplaced(fields, d) {
      var j :| j in fields && [Key(j)] in d;
      FewerPossible(fields, d, j, keys);
      forall k | k in fields && [Key(k)] in d
        ensures k == j && (k == SERVICE_REF_NEW_KEY || SERVICE_REF_NEW_KEY !in fields)
      {
        if k != j {
          TwoReplaced(fields, d, j, k, keys);
        }
        if SERVICE_REF_NEW_KEY in fields && SERVICE_REF_NEW_KEY != k {
          TwoReplaced(fields, d, k, SERVICE_REF_NEW_KEY, keys);
        }
      }
    }
  }

  lemma FewerPossible(fields: map<string, Tree>, d: set<Path>, j: string, keys: set<string>)
    requires j in fields && [Key(j)] in d && keys <= Possible(fields, d) && |keys| == |fields|
    ensures SERVICE_REF_NEW_KEY !in Unreplaced(fields, d)
  {
    if SERVICE_REF_NEW_KEY in Unreplaced(fields, d) {
      assert keys <= fields.Keys - {j};
      Subset(keys, fields.Keys - {j});
    }
  }

  lemma TwoReplaced(fields: map<string, Tree>, d: set<Path>, j: string, k: string, keys: set<string>)
    requires j in fields && [Key(j)] in d && k in fields && [Key(k)] in d && j != k
    requires keys <= Possible(fields, d)
    ensures |keys| < |fields|
  {
    Subset(keys, fields.Keys - {j, k} + {SERVICE_REF_NEW_KEY});
  }

  lemma Subset(a: set<string>, b: set<string>)
    requires a <= b
    ensures |a| <= |b|
  {
    assert b == a + (b - a);
  }

  lemma {:induction false} NoneLostMeansNoClash(pass: Pass, t: Tree, d: set<Path>, r: Tree)
    requires pass.ResolveRefs? && AllSites(pass, t, d) && Shrunk(t, d, r) && KeepsEntries(pass, t, r)
    ensures NoClash(pass, t)
    decreases t
  {
    match t
    case Leaf(_) =>
    case List(items) =>
      forall i | 0 <= i < |items|
        ensures NoClash(pass, items[i])
      {
        SitesBelow(pass, t, d, Index(i));
        NoneLostMeansNoClash(pass, items[i], Tails(d, Index(i)), r.items[i]);
      }
    case Dict(fields) =>
      forall k | k in fields
        ensures [Key(k)] in d <==> IsSite(pass, Key(k), fields[k])
      {
        SitesBelow(pass, t, d, Key(k));
      }
      NoneLostHere(pass, fields, d, r.fields.Keys);
      forall k | k in fields
        ensures NoClash(pass, fields[k])
      {
        if [Key(k)] !in d {
          SitesBelow(pass, t, d, Key(k));
          NoneLostMeansNoClash(pass, fields[k], Tails(d, Key(k)), r.fields[k]);
        }
      }
  }

  // ----- Without a clash nothing is lost

  lemma NothingReplaced(pass: Pass, fields: map<string, Tree>)
    requires pass.ResolveRefs? && NoClash(pass, Dict(fields))
    requires forall k :: k in fields ==> !IsSite(pass, Key(k), fields[k])
    ensures Mapped(pass, Dict(fields)).fields.Keys == fields.Keys
  {
    assert Replaced(pass, fields).Keys == {};
  }

  lemma OneReplaced(pass: Pass, fields: map<string, Tree>, j: string)
    requires pass.ResolveRefs? && NoClash(pass, Dict(fields)) && j in fields && IsSite(pass, Key(j), fields[j])
    ensures Mapped(pass, Dict(fields)).fields.Keys == fields.Keys - {j} + {SERVICE_REF_NEW_KEY}
  {
    assert Replaced(pass, fields).Keys == {SERVICE_REF_NEW_KEY};
  }

  lemma MappedSize(pass: Pass, fields: map<string, Tree>)
    requires pass.ResolveRefs? && NoClash(pass, Dict(fields))
    ensures |Mapped(pass, Dict(fields)).fields| == |fields|
  {
    if j :| j in fields && IsSite(pass, Key(j), fields[j]) {
      OneReplaced(pass, fields, j);
    } else {
      NothingReplaced(pass, fields);
    }
  }

  lemma {:induction false} MappedKeepsEntries(pass: Pass, t: Tree)
    requires pass.ResolveRefs? && NoClash(pass, t)
    ensures KeepsEntries(pass, t, Mapped(pass, t))
    decreases t
  {
    match t
    case Leaf(_) =>
    case List(items) =>
      forall i | 0 <= i < |items|
        ensures Mapped(pass, t).items[i] == Mapped(pass, items[i])
        ensures KeepsEntries(pass, items[i], Mapped(pass, items[i]))
      {
        assert !IsSite(pass, Index(i), items[i]);
        MappedKeepsEntries(pass, items[i]);
      }
    case Dict(fields) =>
      MappedSize(pass, fields);
      forall k | k in fields && !IsSite(pass, Key(k), fields[k])
        ensures KeepsEntries(pass, fields[k], Mapped(pass, fields[k]))
      {
        MappedKeepsEntries(pass, fields[k]);
      }
  }
}
