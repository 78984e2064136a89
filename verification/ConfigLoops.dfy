/** The loops of the two passes of the context builder (template.py and builder.py), which edit path by path. */
module ConfigLoops {
  import opened Texts
  import opened PathSyntax
  import opened ConfigTree
  import opened Flattening
  import opened PathEdits
  import opened ConfigPasses
  import opened LostEntries

  /** `set_nested_key`; None where the code raises. */
  method SetNestedKey(data: Tree, path: string, newKey: string, newValue: Tree) returns (target: Option<Tree>)
    ensures forall p :: p != [] && Parse(path) == Some(p) ==> target == SetAt(data, p, newKey, newValue)
    ensures Parse(path) == None ==> target == None
  {
    var parsed := ParsePath(path);
    match parsed
    case Some(p) => target := if p == [] then None else SetAt(data, p, newKey, newValue);
    case None => target := None;
  }

  // ----- What a loop has done so far

  ghost function Sites(pass: Pass, t: Tree): set<Path> {
    set p | p in Nodes(t) && HasPath(t, p) && p != [] && IsSite(pass, p[|p| - 1], At(t, p))
  }

  lemma SitesAreAll(pass: Pass, t: Tree)
    ensures AllSites(pass, t, Sites(pass, t))
  {
    forall p
      ensures p in Nodes(t) <==> HasPath(t, p)
    {
      NodesArePaths(t, p);
    }
  }

  /** The sites whose printed path has been dealt with. */
  ghost function Done(pass: Pass, t: Tree, todo: set<string>): set<Path> {
    set p | p in Sites(pass, t) && Render(p) !in todo
  }

  /** The configuration after the entries outside `todo` have been dealt with. */
  ghost predicate Progress(pass: Pass, t: Tree, todo: set<string>, r: Tree) {
    Apart(t, Done(pass, t, todo), KeyOf(pass)) && r == Edited(t, Done(pass, t, todo), KeyOf(pass), Edit(pass))
  }

  lemma DoneWithoutClash(pass: Pass, t: Tree, todo: set<string>)
    requires NoClash(pass, t)
    ensures Apart(t, Done(pass, t, todo), KeyOf(pass))
  {
    SitesAreAll(pass, t);
    ApartIffNoClash(pass, t, Sites(pass, t));
    ApartMonotone(t, Done(pass, t, todo), Sites(pass, t), KeyOf(pass));
  }

  lemma ProgressStarts(pass: Pass, t: Tree, todo: set<string>)
    requires forall p :: p in Sites(pass, t) ==> Render(p) in todo
    ensures Progress(pass, t, todo, t)
  {
    assert Done(pass, t, todo) == {};
    NothingEdited(t, KeyOf(pass), Edit(pass));
  }

  lemma ProgressEnds(pass: Pass, t: Tree, r: Tree)
    requires NoClash(pass, t) && Progress(pass, t, {}, r)
    ensures r == Mapped(pass, t)
  {
    SitesAreAll(pass, t);
    assert Done(pass, t, {}) == Sites(pass, t);
    EditedIsMapped(pass, t, Sites(pass, t));
  }

  lemma SiteIsValid(pass: Pass, t: Tree, p: Path)
    requires t.Dict? && WellFormed(t) && p in Sites(pass, t)
    ensures ValidPath(p)
  {
    LeafPathIsValid(t, p);
  }

  lemma DoneAdds(pass: Pass, t: Tree, todo: set<string>, p: Path)
    requires t.Dict? && WellFormed(t) && p in Sites(pass, t) && Render(p) in todo
    ensures Done(pass, t, todo - {Render(p)}) == Done(pass, t, todo) + {p}
  {
    forall q | q in Sites(pass, t)
      ensures Render(q) == Render(p) ==> q == p
    {
      SiteIsValid(pass, t, p);
      SiteIsValid(pass, t, q);
      if Render(q) == Render(p) {
        RenderIsInjective(q, p);
      }
    }
  }

  lemma DoneAtLeaves(pass: Pass, t: Tree, todo: set<string>)
    ensures AtLeaves(t, Done(pass, t, todo))
  {
  }

  /** Editing at one more site. */
  lemma SiteStep(pass: Pass, t: Tree, todo: set<string>, r: Tree, p: Path)
    requires t.Dict? && WellFormed(t) && NoClash(pass, t) && Progress(pass, t, todo, r)
    requires p in Sites(pass, t) && Render(p) in todo
    ensures SetAt(r, p, KeyOf(pass), ValueOf(pass, At(t, p).value.text)).Some?
    ensures Progress(pass, t, todo - {Render(p)}, SetAt(r, p, KeyOf(pass), ValueOf(pass, At(t, p).value.text)).value)
  {
    DoneAdds(pass, t, todo, p);
    DoneAtLeaves(pass, t, todo - {Render(p)});
    DoneWithoutClash(pass, t, todo - {Render(p)});
    SetExtendsEdits(t, Done(pass, t, todo), p, KeyOf(pass), Edit(pass), ValueOf(pass, At(t, p).value.text));
  }

  lemma NotDone(pass: Pass, t: Tree, todo: set<string>, p: Path)
    requires t.Dict? && WellFormed(t) && ValidPath(p) && p !in Sites(pass, t)
    ensures Done(pass, t, todo - {Render(p)}) == Done(pass, t, todo)
  {
    forall q | q in Sites(pass, t)
      ensures Render(q) != Render(p)
    {
      SiteIsValid(pass, t, q);
      if Render(q) == Render(p) {
        RenderIsInjective(q, p);
      }
    }
  }

  /** An entry that the pass skips. */
  lemma SkipStep(pass: Pass, t: Tree, todo: set<string>, r: Tree, p: Path)
    requires t.Dict? && WellFormed(t) && NoClash(pass, t) && Progress(pass, t, todo, r)
    requires ValidPath(p) && p !in Sites(pass, t)
    ensures Progress(pass, t, todo - {Render(p)}, r)
  {
    NotDone(pass, t, todo, p);
  }

  // ----- Normalising path-like strings

  /** The loop of `resolve_strings` after rendering: rewriting path by path equals the recursive map. */
  method ResolveStrings(rendered: Tree, pathLike: string -> bool, absolute: string -> string) returns (resolved: Tree)
    requires rendered.Dict? ==> WellFormed(rendered)
    ensures rendered.Dict? ==> resolved == Normalised(pathLike, absolute, rendered)
    ensures !rendered.Dict? ==> resolved == rendered
  {
    resolved := rendered;
    if rendered.Dict? {
      ghost var pass := Normalise(pathLike, absolute);
      var flat := FlattenDict(rendered);
      var todo := flat.Keys;
      NormaliseNeverClashes(pathLike, absolute, rendered);
      FlatHasSites(pass, rendered, flat);
      ProgressStarts(pass, rendered, todo);
      while todo != {}
        invariant todo <= flat.Keys
        invariant Progress(pass, rendered, todo, resolved)
      {
        var path :| path in todo;
        var value := flat[path];
        ghost var p := FlatEntry(pass, rendered, flat, path);
        if IsString(value) && pathLike(value.value.text) && absolute(value.value.text) != value.value.text {
          SiteStep(pass, rendered, todo, resolved, p);
          var target := SetNestedKey(resolved, path, "", Leaf(Str(absolute(value.value.text))));
          resolved := target.value;
        } else {
          SkipStep(pass, rendered, todo, resolved, p);
        }
        todo := todo - {path};
      }
      ProgressEnds(pass, rendered, resolved);
    }
  }

  lemma FlatEntry(pass: Pass, t: Tree, flat: map<string, Tree>, path: string) returns (p: Path)
    requires t.Dict? && WellFormed(t) && IsFlat(flat, t, []) && path in flat
    ensures ValidPath(p) && path == Render(p) && Parse(path) == Some(p)
    ensures HasPath(t, p) && At(t, p) == flat[path]
    ensures p in Sites(pass, t) <==> IsSite(pass, p[|p| - 1], flat[path])
  {
    p := EntryIsLeaf(t, flat, path);
    NodesArePaths(t, p);
  }

  lemma FlatHasLeaf(t: Tree, flat: map<string, Tree>, p: Path)
    requires IsFlat(flat, t, []) && IsLeafPath(t, p) && p != []
    ensures Render(p) in flat
  {
    assert [] + p == p;
  }

  lemma FlatHasSites(pass: Pass, t: Tree, flat: map<string, Tree>)
    requires IsFlat(flat, t, [])
    ensures forall p :: p in Sites(pass, t) ==> Render(p) in flat
  {
    forall p | p in Sites(pass, t)
      ensures Render(p) in flat
    {
      FlatHasLeaf(t, flat, p);
    }
  }

  // ----- Resolving service references

  predicate IsFound(matches: string -> bool, p: Path) {
    p != [] && p[|p| - 1].Key? && matches(p[|p| - 1].key)
  }

  /** The paths below `t` that end in a matching key. */
  function Found(matches: string -> bool, t: Tree): set<Path> {
    set p | p in Nodes(t) && IsFound(matches, p)
  }

  /** Below a child: what is found there, and the child itself if its own key matches. */
  lemma FoundOfChild(matches: string -> bool, node: Tree, s: Seg)
    requires HasChild(node, s)
    ensures Tails(Found(matches, node), s)
         == Found(matches, Child(node, s)) + (if IsFound(matches, [s]) then {[]} else {})
  {
    forall p
      ensures p in Tails(Found(matches, node), s) <==>
        p in Found(matches, Child(node, s)) || (p == [] && IsFound(matches, [s]))
    {
      TailsMember(Found(matches, node), s, p);
      NodesArePaths(node, [s] + p);
      NodesArePaths(Child(node, s), p);
      AtStep(node, s, p);
      assert p == [] ==> [s] + p == [s];
      assert p != [] ==> ([s] + p)[|p|] == p[|p| - 1];
    }
  }

  lemma OwnPathDiffers(prefix: Path, d: set<Path>)
    requires ValidPath(prefix) && [] !in d && forall p :: p in d ==> ValidPath(prefix + p)
    ensures prefix + [] == prefix && forall p :: p in d ==> Render(prefix + p) != Render(prefix)
  {
    forall p | p in d
      ensures Render(prefix + p) != Render(prefix)
    {
      assert |prefix + p| != |prefix|;
      if Render(prefix + p) == Render(prefix) {
        RenderIsInjective(prefix + p, prefix);
      }
    }
  }

  /** Entering a node itself before the nodes below it. */
  lemma EntersOwn(before: map<string, Tree>, after: map<string, Tree>, node: Tree, prefix: Path, d: set<Path>)
    requires ValidPath(prefix) && [] !in d
    requires Enters(before[Render(prefix) := node], after, node, prefix, d)
    ensures Enters(before, after, node, prefix, d + {[]})
  {
    OwnPathDiffers(prefix, d);
    assert Render(prefix) in after && after[Render(prefix)] == node;
    assert Entered(after, node, prefix, d + {[]});
  }

  /** The inner generator `_recurse`, collecting what it yields under the yielded paths. */
  method Recurse(node: Tree, ghost prefix: Path, path: string, matches: string -> bool, found: map<string, Tree>)
    returns (after: map<string, Tree>)
    requires CanVisit(node, prefix) && path == Render(prefix)
    ensures Enters(found, after, node, prefix, Found(matches, node))
    decreases node
  {
    after := found;
    ghost var all := Found(matches, node);
    ghost var done: set<Seg> := {};
    match node
    case Leaf(_) =>
    case List(items) =>
      for i := 0 to |items|
        invariant forall s :: s in done <==> HasChild(node, s) && s.index < i
        invariant Enters(found, after, node, prefix, Below(all, done))
      {
        ghost var mid := after;
        ChildCanBeVisited(node, prefix, Index(i));
        after := Recurse(items[i], prefix + [Index(i)], BuildPath(path, Index(i)), matches, after);
        FoundOfChild(matches, node, Index(i));
        EntersChild(found, mid, after, node, prefix, all, done, Index(i));
        done := done + {Index(i)};
      }
      AllChildrenDone(node, all, done);
    case Dict(fields) =>
      var todo := fields.Keys;
      while todo != {}
        invariant todo <= fields.Keys
        invariant forall s :: s in done <==> HasChild(node, s) && s.key !in todo
        invariant Enters(found, after, node, prefix, Below(all, done))
      {
        var k :| k in todo;
        ghost var mid := after;
        after := RecurseField(node, k, prefix, path, matches, after);
        EntersChild(found, mid, after, node, prefix, all, done, Key(k));
        done, todo := done + {Key(k)}, todo - {k};
      }
      AllChildrenDone(node, all, done);
  }

  /** The body of the loop over the items of a dictionary. */
  method RecurseField(node: Tree, k: string, ghost prefix: Path, path: string, matches: string -> bool,
                      found: map<string, Tree>)
    returns (after: map<string, Tree>)
    requires CanVisit(node, prefix) && path == Render(prefix) && node.Dict? && k in node.fields
    ensures Enters(found, after, node.fields[k], prefix + [Key(k)], Tails(Found(matches, node), Key(k)))
    decreases node, 0
  {
    var value, newPath := node.fields[k], BuildPath(path, Key(k));
    ChildCanBeVisited(node, prefix, Key(k));
    FoundOfChild(matches, node, Key(k));
    after := found;
    if matches(k) {
      after := after[newPath := value];
    }
    after := Recurse(value, prefix + [Key(k)], newPath, matches, after);
    if matches(k) {
      BelowIsValid(node, prefix, [Key(k)]);
      EntersOwn(found, after, value, prefix + [Key(k)], Found(matches, value));
    }
  }

  /** `find_keys_by_pattern` on a dictionary: exactly the entries under matching keys, at any depth. */
  method FindKeysByPattern(data: Tree, matches: string -> bool) returns (found: map<string, Tree>)
    requires data.Dict? && WellFormed(data)
    ensures forall p :: p in Found(matches, data) ==>
      Render(p) in found && HasPath(data, p) && found[Render(p)] == At(data, p)
    ensures forall key :: key in found ==> exists p :: p in Found(matches, data) && key == Render(p)
  {
    found := Recurse(data, [], "", matches, map[]);
    forall p: Path
      ensures [] + p == p
    {
    }
  }

  /** Replacing references is under way: all done so far, if no keys clash, and nothing else there in any case. */
  ghost predicate Underway(pass: Pass, t: Tree, todo: set<string>, r: Tree) {
    && Shrunk(t, Done(pass, t, todo), r)
    && (NoClash(pass, t) ==> Progress(pass, t, todo, r))
  }

  lemma UnderwayStarts(pass: Pass, t: Tree, todo: set<string>)
    requires forall p :: p in Sites(pass, t) ==> Render(p) in todo
    ensures Underway(pass, t, todo, t)
  {
    ProgressStarts(pass, t, todo);
    ShrunkStarts(t);
    assert Done(pass, t, todo) == {};
  }

  /** The service reference at `p` is replaced, whether keys clash or not. */
  lemma ReferenceStep(pass: Pass, t: Tree, todo: set<string>, r: Tree, p: Path)
    requires t.Dict? && WellFormed(t) && pass.ResolveRefs? && p in Sites(pass, t) && Render(p) in todo
    requires Underway(pass, t, todo, r)
    ensures var target := SetAt(r, p, SERVICE_REF_NEW_KEY, ValueOf(pass, At(t, p).value.text));
      && (NoClash(pass, t) ==> target.Some?)
      && (target.Some? ==> Underway(pass, t, todo - {Render(p)}, target.value))
  {
    var value := ValueOf(pass, At(t, p).value.text);
    if NoClash(pass, t) {
      SiteStep(pass, t, todo, r, p);
    }
    if SetAt(r, p, SERVICE_REF_NEW_KEY, value).Some? {
      DoneAdds(pass, t, todo, p);
      ReplaceOneMore(t, Done(pass, t, todo), p, r, value);
    }
  }

  lemma OtherEntry(pass: Pass, t: Tree, todo: set<string>, r: Tree, p: Path)
    requires t.Dict? && WellFormed(t) && ValidPath(p) && p !in Sites(pass, t) && Underway(pass, t, todo, r)
    ensures Underway(pass, t, todo - {Render(p)}, r)
  {
    NotDone(pass, t, todo, p);
  }

  lemma AllReferencesDone(pass: Pass, t: Tree, r: Tree)
    requires pass.ResolveRefs? && Underway(pass, t, {}, r)
    ensures NoClash(pass, t) <==> KeepsEntries(pass, t, r)
    ensures NoClash(pass, t) ==> r == Mapped(pass, t)
  {
    SitesAreAll(pass, t);
    assert Done(pass, t, {}) == Sites(pass, t);
    if NoClash(pass, t) {
      ProgressEnds(pass, t, r);
      MappedKeepsEntries(pass, t);
    } else if KeepsEntries(pass, t, r) {
      NoneLostMeansNoClash(pass, t, Sites(pass, t), r);
    }
  }

  /**
   * `_resolve_service_refs`; None where the code raises. Replacing path by path equals the recursive replacement when
   * no keys clash; and when some do, some entry is lost, whatever the order and whatever the services.
   */
  method ResolveServiceRefs(config: Tree, matches: string -> bool, lookup: string -> Option<Tree>)
    returns (resolved: Option<Tree>)
    requires config.Dict? && WellFormed(config)
    ensures var pass := ResolveRefs(matches, lookup);
      && (NoClash(pass, config) ==> resolved == Some(Mapped(pass, config)))
      && (NoClash(pass, config) <==> resolved.Some? && KeepsEntries(pass, config, resolved.value))
  {
    ghost var pass := ResolveRefs(matches, lookup);
    var items := FindKeysByPattern(config, matches);
    var todo, current := items.Keys, config;
    UnderwayStarts(pass, config, todo);
    while todo != {}
      invariant todo <= items.Keys && Underway(pass, config, todo, current)
    {
      var path :| path in todo;
      var serviceRef := items[path];
      ghost var p := FoundPath(matches, config, items, path);
      if IsString(serviceRef) {
        var svc := lookup(serviceRef.value.text);
        var resolvedRef := if svc.Some? then svc.value else NONE_LEAF;
        ReferenceStep(pass, config, todo, current, p);
        var target := SetNestedKey(current, path, SERVICE_REF_NEW_KEY, resolvedRef);
        if target == None {
          return None;
        }
        current := target.value;
      } else {
        OtherEntry(pass, config, todo, current, p);
      }
      todo := todo - {path};
    }
    AllReferencesDone(pass, config, current);
    resolved := Some(current);
  }

  lemma FoundPath(matches: string -> bool, t: Tree, items: map<string, Tree>, path: string) returns (p: Path)
    requires t.Dict? && WellFormed(t) && path in items
    requires forall p :: p in Found(matches, t) ==> Render(p) in items && HasPath(t, p) && items[Render(p)] == At(t, p)
    requires forall key :: key in items ==> exists p :: p in Found(matches, t) && key == Render(p)
    ensures p in Found(matches, t) && HasPath(t, p) && items[path] == At(t, p)
    ensures ValidPath(p) && path == Render(p) && Parse(path) == Some(p)
  {
    p :| p in Found(matches, t) && path == Render(p);
    LeafPathIsValid(t, p);
    ParseOfRender(p);
  }

  /** The tree with the node at `p` replaced. */
  function PutAt(t: Tree, p: Path, x: Tree): Tree
    requires HasPath(t, p)
    decreases |p|
  {
    if p == [] then x else WithChild(t, p[0], PutAt(Child(t, p[0]), p[1..], x))
  }

  /** Editing below a node is editing the node and putting it back. */
  lemma {:induction false} SetBelow(t: Tree, p: Path, s: Seg, name: string, value: Tree)
    requires HasPath(t, p)
    ensures SetAt(t, p + [s], name, value) ==
      match SetHere(At(t, p), s, name, value)
      case Some(x) => Some(PutAt(t, p, x))
      case None => None
    decreases |p|
  {
    if p == [] {
      assert p + [s] == [s];
    } else {
      assert (p + [s])[0] == p[0] && (p + [s])[1..] == p[1..] + [s];
      SetBelow(Child(t, p[0]), p[1..], s, name, value);
    }
  }

  lemma {:induction false} PutTwice(t: Tree, p: Path, x: Tree, y: Tree)
    requires HasPath(t, p)
    ensures HasPath(PutAt(t, p, x), p) && At(PutAt(t, p, x), p) == x
    ensures PutAt(PutAt(t, p, x), p, y) == PutAt(t, p, y)
    decreases |p|
  {
    if p != [] {
      PutTwice(Child(t, p[0]), p[1..], x, y);
    }
  }

  /**
   * Of two references in one dictionary, at any depth, only the one replaced last survives, so the result depends on
   * the order.
   */
  lemma ClashKeepsTheLast(t: Tree, p: Path, j: string, k: string, a: Tree, b: Tree)
    requires HasPath(t, p) && At(t, p).Dict? && j in At(t, p).fields && k in At(t, p).fields
    requires j != k && SERVICE_REF_NEW_KEY !in {j, k} && a != NONE_LEAF && b != NONE_LEAF
    ensures
      var between := SetAt(t, p + [Key(j)], SERVICE_REF_NEW_KEY, a);
      && between.Some?
      && SetAt(between.value, p + [Key(k)], SERVICE_REF_NEW_KEY, b)
           == Some(PutAt(t, p, Dict((At(t, p).fields - {j, k})[SERVICE_REF_NEW_KEY := b])))
  {
    var fields := At(t, p).fields;
    var first, last := (fields - {j})[SERVICE_REF_NEW_KEY := a], (fields - {j, k})[SERVICE_REF_NEW_KEY := b];
    SetBelow(t, p, Key(j), SERVICE_REF_NEW_KEY, a);
    PutTwice(t, p, Dict(first), Dict(last));
    SetBelow(PutAt(t, p, Dict(first)), p, Key(k), SERVICE_REF_NEW_KEY, b);
    assert (first - {k})[SERVICE_REF_NEW_KEY := b] == last;
  }
}
