/**
 * Editing a tree at a path with `set_nested_key`, and many such edits after each other (libs/utils/dict.py). As long as
 * no renamed key meets another one, an edit neither removes what a later one has to pass through nor changes its node.
 */
module PathEdits {
  import opened Texts
  import opened PathSyntax
  import opened ConfigTree

  // ----- One edit

  function WithChild(t: Tree, s: Seg, child: Tree): Tree
    requires HasChild(t, s)
  {
    match s
    case Key(k) => Dict(t.fields[k := child])
    case Index(i) => List(t.items[i := child])
  }

  function NewName(k: string, name: string): string {
    if name != "" then name else k
  }

  function NewValue(was: Tree, value: Tree): Tree {
    if value != NONE_LEAF then value else was
  }

  /** The last step of `set_nested_key`, on the container; an empty name and a None value mean "keep". */
  function SetHere(t: Tree, s: Seg, name: string, value: Tree): Option<Tree> {
    match (t, s)
    case (List(items), Index(i)) =>
      if value == NONE_LEAF then Some(t)
      else if i < |items| then Some(List(items[i := value]))
      else None
    case (Dict(fields), Key(k)) =>
      if k in fields then Some(Dict((fields - {k})[NewName(k, name) := NewValue(fields[k], value)])) else Some(t)
    case _ => Some(t)
  }

  /** Navigate to the container and edit it; None where navigation raises. */
  function SetAt(t: Tree, p: Path, name: string, value: Tree): Option<Tree>
    requires p != []
    decreases |p|
  {
    if |p| == 1 then SetHere(t, p[0], name, value)
    else if HasChild(t, p[0]) then
      match SetAt(Child(t, p[0]), p[1..], name, value)
      case Some(child) => Some(WithChild(t, p[0], child))
      case None => None
    else None
  }

  /** The container and the last segment of a path. */
  function Parent(p: Path): Path
    requires p != []
  {
    p[..|p| - 1]
  }

  function Last(p: Path): Seg
    requires p != []
  {
    p[|p| - 1]
  }

  lemma ParentBelow(p: Path)
    requires |p| > 1
    ensures Parent(p) == [p[0]] + Parent(p[1..]) && Parent(p)[1..] == Parent(p[1..]) && Last(p) == Last(p[1..])
  {
  }

  /** Exactly when an edit raises: the container is not there, or a list is too short for a new value. */
  lemma {:induction false} SetRaises(t: Tree, p: Path, name: string, value: Tree)
    requires p != []
    ensures SetAt(t, p, name, value) == None <==>
      || !HasPath(t, Parent(p))
      || (value != NONE_LEAF && Last(p).Index? && At(t, Parent(p)).List? && !HasChild(At(t, Parent(p)), Last(p)))
    decreases |p|
  {
    if |p| > 1 {
      ParentBelow(p);
      if HasChild(t, p[0]) {
        SetRaises(Child(t, p[0]), p[1..], name, value);
      }
    }
  }

  lemma SameChild(t: Tree, s: Seg)
    requires HasChild(t, s)
    ensures WithChild(t, s, Child(t, s)) == t
  {
    match s
    case Key(k) => assert t.fields[k := t.fields[k]] == t.fields;
    case Index(i) => assert t.items[i := t.items[i]] == t.items;
  }

  /** An edit of something that is not there changes nothing. */
  lemma {:induction false} SetMissing(t: Tree, p: Path, name: string, value: Tree)
    requires p != [] && !HasPath(t, p) && SetAt(t, p, name, value).Some?
    ensures SetAt(t, p, name, value) == Some(t)
    decreases |p|
  {
    if |p| == 1 {
      assert p[1..] == [];
    } else {
      SetMissing(Child(t, p[0]), p[1..], name, value);
      SameChild(t, p[0]);
    }
  }

  lemma PathThroughChild(t: Tree, s: Seg, child: Tree, rest: Path)
    requires HasChild(t, s)
    ensures HasPath(WithChild(t, s, child), [s] + rest) <==> HasPath(child, rest)
    ensures HasPath(child, rest) ==> At(WithChild(t, s, child), [s] + rest) == At(child, rest)
  {
    assert ([s] + rest)[1..] == rest;
  }

  /** Where the edited node is afterwards: under the new name, or under the old one if none is given. */
  function Renamed(p: Path, name: string): Path
    requires p != []
  {
    Parent(p) + [if Last(p).Key? && name != "" then Key(name) else Last(p)]
  }

  lemma PathOfOne(t: Tree, s: Seg)
    ensures HasPath(t, [s]) <==> HasChild(t, s)
    ensures HasChild(t, s) ==> At(t, [s]) == Child(t, s)
  {
    assert [s][1..] == [];
  }

  lemma SetHereReaches(t: Tree, s: Seg, name: string, value: Tree)
    requires HasChild(t, s)
    ensures SetHere(t, s, name, value).Some?
    ensures var r, seg := SetHere(t, s, name, value).value, if s.Key? && name != "" then Key(name) else s;
      && HasChild(r, seg) && Child(r, seg) == (if value == NONE_LEAF then Child(t, s) else value)
      && (seg != s ==> !HasChild(r, s))
  {
  }

  /** An edit puts the value, or the old one for None, under the new name, and the old name is gone. */
  lemma {:induction false} SetReaches(t: Tree, p: Path, name: string, value: Tree)
    requires HasPath(t, p) && p != []
    ensures SetAt(t, p, name, value).Some?
    ensures var r := SetAt(t, p, name, value).value;
      && HasPath(r, Renamed(p, name)) && At(r, Renamed(p, name)) == (if value == NONE_LEAF then At(t, p) else value)
      && (Renamed(p, name) != p ==> !HasPath(r, p))
    decreases |p|, 1
  {
    var rest := p[1..];
    assert p == [p[0]] + rest;
    if |p| == 1 {
      SetHereReaches(t, p[0], name, value);
      var r := SetHere(t, p[0], name, value).value;
      assert p == [p[0]] && Renamed(p, name) == [if p[0].Key? && name != "" then Key(name) else p[0]];
      PathOfOne(t, p[0]);
      PathOfOne(r, p[0]);
      PathOfOne(r, Renamed(p, name)[0]);
    } else {
      SetReachesBelow(t, p[0], rest, name, value);
    }
  }

  lemma {:induction false} SetReachesBelow(t: Tree, s: Seg, rest: Path, name: string, value: Tree)
    requires HasChild(t, s) && HasPath(Child(t, s), rest) && rest != []
    ensures var p := [s] + rest;
      && HasPath(t, p) && SetAt(t, p, name, value).Some?
      && var r := SetAt(t, p, name, value).value;
      && HasPath(r, Renamed(p, name)) && At(r, Renamed(p, name)) == (if value == NONE_LEAF then At(t, p) else value)
      && (Renamed(p, name) != p ==> !HasPath(r, p))
    decreases |rest| + 1, 0
  {
    var p := [s] + rest;
    assert p[1..] == rest;
    ParentBelow(p);
    assert Renamed(p, name) == [s] + Renamed(rest, name);
    SetReaches(Child(t, s), rest, name, value);
    var child := SetAt(Child(t, s), rest, name, value).value;
    PathThroughChild(t, s, child, rest);
    PathThroughChild(t, s, child, Renamed(rest, name));
  }

  /** An edit leaves every other node as it is: those whose path parts from the edited one, and not for the new name. */
  lemma {:induction false} SetElsewhere(t: Tree, p: Path, name: string, value: Tree, q: Path, n: nat)
    requires HasPath(t, q) && n < |p| && n < |q| && p[..n] == q[..n] && p[n] != q[n]
    requires n == |p| - 1 ==> q[n] != Key(name)
    requires SetAt(t, p, name, value).Some?
    ensures HasPath(SetAt(t, p, name, value).value, q) && At(SetAt(t, p, name, value).value, q) == At(t, q)
    decreases n
  {
    if n > 0 {
      assert p[0] == p[..n][0] == q[..n][0] == q[0];
      assert p[1..][..n - 1] == p[..n][1..] && q[1..][..n - 1] == q[..n][1..];
      SetElsewhere(Child(t, p[0]), p[1..], name, value, q[1..], n - 1);
    }
  }

  // ----- Many edits at once

  /** The tree with the nodes at `d` replaced by `g` of them and their keys renamed to `name`, if that is given. */
  ghost function Edited(t: Tree, d: set<Path>, name: string, g: Tree -> Tree): Tree
    requires Apart(t, d, name)
    decreases t, 1
  {
    match t
    case Leaf(_) => t
    case List(items) =>
      List(seq(|items|, i requires 0 <= i < |items| =>
        if [Index(i)] in d then g(items[i]) else Edited(items[i], Tails(d, Index(i)), name, g)))
    case Dict(fields) => Dict(KeptFields(t, d, name, g) + NewFields(fields, d, name, g))
  }

  ghost function KeptFields(t: Tree, d: set<Path>, name: string, g: Tree -> Tree): map<string, Tree>
    requires t.Dict? && Apart(t, d, name)
    decreases t, 0
  {
    map k | k in t.fields && [Key(k)] !in d :: Edited(t.fields[k], Tails(d, Key(k)), name, g)
  }

  ghost predicate DistinctNames(fields: map<string, Tree>, d: set<Path>, name: string) {
    forall j, k :: j in fields && k in fields && [Key(j)] in d && [Key(k)] in d && j != k ==>
      NewName(j, name) != NewName(k, name)
  }

  ghost function NewFields(fields: map<string, Tree>, d: set<Path>, name: string, g: Tree -> Tree): map<string, Tree>
    requires DistinctNames(fields, d, name)
  {
    map k | k in fields && [Key(k)] in d :: NewName(k, name) := g(fields[k])
  }

  /** In no dictionary does a renamed key meet another key: renamed there too, or already there. */
  ghost predicate Apart(t: Tree, d: set<Path>, name: string) {
    match t
    case Leaf(_) => true
    case List(items) => forall i :: 0 <= i < |items| ==> Apart(items[i], Tails(d, Index(i)), name)
    case Dict(fields) =>
      && (forall k :: k in fields ==> Apart(fields[k], Tails(d, Key(k)), name))
      && (forall k :: k in fields && [Key(k)] in d ==> NewName(k, name) == k || NewName(k, name) !in fields)
      && DistinctNames(fields, d, name)
  }

  /** Edits go to scalars only, so no edit removes what another one has to pass through. */
  ghost predicate AtLeaves(t: Tree, d: set<Path>) {
    forall p :: p in d ==> p != [] && HasPath(t, p) && At(t, p).Leaf?
  }

  lemma AtLeavesBelow(t: Tree, d: set<Path>, s: Seg)
    requires AtLeaves(t, d) && HasChild(t, s) && [s] !in d
    ensures AtLeaves(Child(t, s), Tails(d, s))
  {
    forall p | p in Tails(d, s)
      ensures p != [] && HasPath(Child(t, s), p) && At(Child(t, s), p).Leaf?
    {
      TailsMember(d, s, p);
      assert ([s] + p)[1..] == p && [s] + [] == [s];
    }
  }

  lemma NewFieldAdds(fields: map<string, Tree>, d: set<Path>, k: string, name: string, g: Tree -> Tree)
    requires k in fields && [Key(k)] !in d
    requires DistinctNames(fields, d, name) && DistinctNames(fields, d + {[Key(k)]}, name)
    ensures NewFields(fields, d + {[Key(k)]}, name, g)
         == NewFields(fields, d, name, g)[NewName(k, name) := g(fields[k])]
  {
    var before, after := NewFields(fields, d, name, g), NewFields(fields, d + {[Key(k)]}, name, g);
    forall n
      ensures n in after <==> n in before || n == NewName(k, name)
    {
      if n in after {
        var j :| j in fields && [Key(j)] in d + {[Key(k)]} && n == NewName(j, name);
      }
      if n in before {
        var j :| j in fields && [Key(j)] in d && n == NewName(j, name);
        assert [Key(j)] in d + {[Key(k)]};
      }
      if n == NewName(k, name) {
        assert [Key(k)] in d + {[Key(k)]};
      }
    }
  }

  lemma KeptFieldDrops(t: Tree, d: set<Path>, k: string, name: string, g: Tree -> Tree)
    requires t.Dict? && k in t.fields && [Key(k)] !in d
    requires Apart(t, d, name) && Apart(t, d + {[Key(k)]}, name)
    ensures KeptFields(t, d + {[Key(k)]}, name, g) == KeptFields(t, d, name, g) - {k}
  {
    forall other | other in t.fields && other != k
      ensures Tails(d + {[Key(k)]}, Key(other)) == Tails(d, Key(other))
    {
      TailsAdd(d, [Key(k)], Key(other));
    }
  }

  lemma MapAlgebra(kept: map<string, Tree>, added: map<string, Tree>, k: string, n: string, v: Tree)
    requires k !in added
    ensures ((kept + added) - {k})[n := v] == (kept - {k}) + added[n := v]
  {
  }

  /** No renamed key lands on a key that is still to be edited or passed through. */
  lemma NewFieldsAvoid(t: Tree, d: set<Path>, k: string, name: string, g: Tree -> Tree)
    requires t.Dict? && Apart(t, d, name) && k in t.fields && [Key(k)] !in d
    ensures k !in NewFields(t.fields, d, name, g)
  {
  }

  lemma EditField(t: Tree, d: set<Path>, k: string, name: string, g: Tree -> Tree, value: Tree)
    requires t.Dict? && k in t.fields && [Key(k)] !in d
    requires Apart(t, d, name) && Apart(t, d + {[Key(k)]}, name)
    requires t.fields[k].Leaf? && g(t.fields[k]) == NewValue(t.fields[k], value)
    ensures SetHere(Edited(t, d, name, g), Key(k), name, value) == Some(Edited(t, d + {[Key(k)]}, name, g))
  {
    NewFieldAdds(t.fields, d, k, name, g);
    KeptFieldDrops(t, d, k, name, g);
    NewFieldsAvoid(t, d, k, name, g);
    MapAlgebra(KeptFields(t, d, name, g), NewFields(t.fields, d, name, g), k, NewName(k, name), g(t.fields[k]));
  }

  lemma EditItem(t: Tree, d: set<Path>, i: nat, name: string, g: Tree -> Tree, value: Tree)
    requires t.List? && i < |t.items| && [Index(i)] !in d
    requires Apart(t, d, name) && Apart(t, d + {[Index(i)]}, name)
    requires t.items[i].Leaf? && g(t.items[i]) == NewValue(t.items[i], value)
    ensures SetHere(Edited(t, d, name, g), Index(i), name, value) == Some(Edited(t, d + {[Index(i)]}, name, g))
  {
    forall j | 0 <= j < |t.items| && j != i
      ensures Tails(d + {[Index(i)]}, Index(j)) == Tails(d, Index(j))
    {
      TailsAdd(d, [Index(i)], Index(j));
    }
    var before, after := Edited(t, d, name, g).items, Edited(t, d + {[Index(i)]}, name, g).items;
    assert [Index(i)] in d + {[Index(i)]};
    assert after == before[i := g(t.items[i])];
    assert Apart(t.items[i], Tails(d, Index(i)), name);
    assert Edited(t.items[i], Tails(d, Index(i)), name, g) == t.items[i];
    assert before[i] == t.items[i];
    assert value == NONE_LEAF ==> after == before;
  }

  /** Below a child that is not itself edited, the edited tree is the edited child. */
  lemma EditedChild(t: Tree, d: set<Path>, s: Seg, name: string, g: Tree -> Tree)
    requires Apart(t, d, name) && HasChild(t, s) && [s] !in d
    ensures Apart(Child(t, s), Tails(d, s), name)
    ensures HasChild(Edited(t, d, name, g), s)
    ensures Child(Edited(t, d, name, g), s) == Edited(Child(t, s), Tails(d, s), name, g)
  {
    if s.Key? {
      NewFieldsAvoid(t, d, s.key, name, g);
    }
  }

  lemma KeptFieldChanges(t: Tree, d: set<Path>, p: Path, name: string, g: Tree -> Tree)
    requires t.Dict? && |p| > 1 && p[0].Key? && HasChild(t, p[0]) && [p[0]] !in d
    requires Apart(t, d, name) && Apart(t, d + {p}, name)
    requires Apart(Child(t, p[0]), Tails(d, p[0]) + {p[1..]}, name)
    ensures KeptFields(t, d + {p}, name, g)
         == KeptFields(t, d, name, g)[p[0].key := Edited(Child(t, p[0]), Tails(d, p[0]) + {p[1..]}, name, g)]
  {
    var before, after := KeptFields(t, d, name, g), KeptFields(t, d + {p}, name, g);
    TailsAdd(d, p, p[0]);
    assert forall k :: [Key(k)] in d + {p} <==> [Key(k)] in d;
    forall other | other in t.fields && other != p[0].key
      ensures other in after <==> other in before
      ensures other in after ==> after[other] == before[other]
    {
      TailsAdd(d, p, Key(other));
    }
  }

  lemma NewFieldsStay(fields: map<string, Tree>, d: set<Path>, p: Path, name: string, g: Tree -> Tree)
    requires |p| > 1 && DistinctNames(fields, d, name) && DistinctNames(fields, d + {p}, name)
    ensures NewFields(fields, d + {p}, name, g) == NewFields(fields, d, name, g)
  {
    assert forall k :: [Key(k)] in d + {p} <==> [Key(k)] in d;
  }

  lemma MapAlgebraBelow(kept: map<string, Tree>, added: map<string, Tree>, k: string, v: Tree)
    requires k !in added
    ensures (kept + added)[k := v] == kept[k := v] + added
  {
  }

  lemma DeeperField(t: Tree, d: set<Path>, p: Path, name: string, g: Tree -> Tree)
    requires t.Dict? && |p| > 1 && p[0].Key? && HasChild(t, p[0]) && [p[0]] !in d
    requires Apart(t, d, name) && Apart(t, d + {p}, name)
    requires Apart(Child(t, p[0]), Tails(d, p[0]) + {p[1..]}, name)
    requires HasChild(Edited(t, d, name, g), p[0])
    ensures WithChild(Edited(t, d, name, g), p[0], Edited(Child(t, p[0]), Tails(d, p[0]) + {p[1..]}, name, g))
         == Edited(t, d + {p}, name, g)
  {
    NewFieldsAvoid(t, d, p[0].key, name, g);
    KeptFieldChanges(t, d, p, name, g);
    NewFieldsStay(t.fields, d, p, name, g);
    MapAlgebraBelow(KeptFields(t, d, name, g), NewFields(t.fields, d, name, g), p[0].key,
                    Edited(Child(t, p[0]), Tails(d, p[0]) + {p[1..]}, name, g));
  }

  lemma DeeperItem(t: Tree, d: set<Path>, p: Path, name: string, g: Tree -> Tree)
    requires t.List? && |p| > 1 && p[0].Index? && HasChild(t, p[0]) && [p[0]] !in d
    requires Apart(t, d, name) && Apart(t, d + {p}, name)
    requires Apart(Child(t, p[0]), Tails(d, p[0]) + {p[1..]}, name)
    ensures WithChild(Edited(t, d, name, g), p[0], Edited(Child(t, p[0]), Tails(d, p[0]) + {p[1..]}, name, g))
         == Edited(t, d + {p}, name, g)
  {
    forall j | 0 <= j < |t.items|
      ensures Tails(d + {p}, Index(j)) == if j == p[0].index then Tails(d, p[0]) + {p[1..]} else Tails(d, Index(j))
    {
      TailsAdd(d, p, Index(j));
    }
  }

  lemma ApartBelow(t: Tree, d: set<Path>, s: Seg, name: string)
    requires Apart(t, d, name) && HasChild(t, s)
    ensures Apart(Child(t, s), Tails(d, s), name)
  {
  }

  lemma PassedIsNotEdited(t: Tree, d: set<Path>, p: Path)
    requires AtLeaves(t, d) && p in d && |p| > 1
    ensures [p[0]] !in d
  {
    assert HasPath(Child(t, p[0]), p[1..]) && HasChild(Child(t, p[0]), p[1..][0]);
    assert [p[0]][1..] == [];
    assert At(t, [p[0]]) == At(Child(t, p[0]), []);
  }

  /**
   * The key lemma of both passes: after any of the edits, the path of a further one still leads to its node, and
   * editing there makes exactly that one edit more.
   */
  lemma {:induction false} SetExtendsEdits(t: Tree, d: set<Path>, p: Path, name: string, g: Tree -> Tree, value: Tree)
    requires Apart(t, d, name) && Apart(t, d + {p}, name)
    requires AtLeaves(t, d + {p}) && p !in d
    requires g(At(t, p)) == NewValue(At(t, p), value)
    ensures SetAt(Edited(t, d, name, g), p, name, value) == Some(Edited(t, d + {p}, name, g))
    decreases p
  {
    assert p in d + {p};
    var s, rest := p[0], p[1..];
    if |p| == 1 {
      assert p == [s] && rest == [];
      if s.Key? {
        EditField(t, d, s.key, name, g, value);
      } else {
        EditItem(t, d, s.index, name, g, value);
      }
    } else {
      PassedIsNotEdited(t, d + {p}, p);
      EditedChild(t, d, s, name, g);
      TailsAdd(d, p, s);
      ApartBelow(t, d + {p}, s, name);
      AtLeavesBelow(t, d + {p}, s);
      assert rest !in Tails(d, s) by {
        TailsMember(d, s, rest);
        assert p == [s] + rest;
      }
      SetExtendsEdits(Child(t, s), Tails(d, s), rest, name, g, value);
      if s.Key? {
        DeeperField(t, d, p, name, g);
      } else {
        DeeperItem(t, d, p, name, g);
      }
    }
  }

  /** No edit at all leaves the tree as it is. */
  lemma {:induction false} NothingEdited(t: Tree, name: string, g: Tree -> Tree)
    ensures Apart(t, {}, name) && Edited(t, {}, name, g) == t
    decreases t
  {
    match t
    case Leaf(_) =>
    case List(items) =>
      forall i | 0 <= i < |items|
        ensures Apart(items[i], {}, name) && Edited(items[i], {}, name, g) == items[i]
      {
        NothingEdited(items[i], name, g);
      }
      NoItemEdited(items, name, g);
    case Dict(fields) =>
      forall k | k in fields
        ensures Apart(fields[k], {}, name) && Edited(fields[k], {}, name, g) == fields[k]
      {
        NothingEdited(fields[k], name, g);
      }
      NoFieldEdited(fields, name, g);
  }

  lemma NoItemEdited(items: seq<Tree>, name: string, g: Tree -> Tree)
    requires forall i :: 0 <= i < |items| ==> Apart(items[i], {}, name) && Edited(items[i], {}, name, g) == items[i]
    ensures Apart(List(items), {}, name) && Edited(List(items), {}, name, g) == List(items)
  {
    forall i | 0 <= i < |items|
      ensures Tails({}, Index(i)) == {}
    {
    }
    assert Edited(List(items), {}, name, g).items == items;
  }

  lemma NoNewField(fields: map<string, Tree>, name: string, g: Tree -> Tree)
    ensures DistinctNames(fields, {}, name) && NewFields(fields, {}, name, g) == map[]
  {
  }

  lemma NoFieldEdited(fields: map<string, Tree>, name: string, g: Tree -> Tree)
    requires forall k :: k in fields ==> Apart(fields[k], {}, name) && Edited(fields[k], {}, name, g) == fields[k]
    ensures Apart(Dict(fields), {}, name) && Edited(Dict(fields), {}, name, g) == Dict(fields)
  {
    forall k | k in fields
      ensures Tails({}, Key(k)) == {}
    {
    }
    NoNewField(fields, name, g);
    assert KeptFields(Dict(fields), {}, name, g) == fields;
  }

  lemma {:induction false} ApartMonotone(t: Tree, d: set<Path>, e: set<Path>, name: string)
    requires d <= e && Apart(t, e, name)
    ensures Apart(t, d, name)
    decreases t
  {
    assert forall s :: Tails(d, s) <= Tails(e, s);
    match t
    case Leaf(_) =>
    case List(items) =>
      forall i | 0 <= i < |items|
        ensures Apart(items[i], Tails(d, Index(i)), name)
      {
        ApartMonotone(items[i], Tails(d, Index(i)), Tails(e, Index(i)), name);
      }
    case Dict(fields) =>
      forall k | k in fields
        ensures Apart(fields[k], Tails(d, Key(k)), name)
      {
        ApartMonotone(fields[k], Tails(d, Key(k)), Tails(e, Key(k)), name);
      }
  }
}
