/**
 * What the two passes of the context builder that edit a configuration path by path are to produce: recursive maps
 * (apps/ingestion/src/core/contexts/builder/template.py and builder.py).
 */
module ConfigPasses {
  import opened Texts
  import opened PathSyntax
  import opened ConfigTree
  import opened PathEdits

  // ----- The two passes, and the trees they are to produce

  /**
   * Making path-like strings absolute, and replacing service references by connections. Which strings are path-like,
   * what their absolute form is, which keys match and which services exist are inputs.
   */
  datatype Pass =
    | Normalise(pathLike: string -> bool, absolute: string -> string)
    | ResolveRefs(matches: string -> bool, lookup: string -> Option<Tree>)

  const SERVICE_REF_NEW_KEY := "connection"

  predicate IsString(t: Tree) {
    t.Leaf? && t.value.Str?
  }

  /** The nodes a pass edits: `t` is reached through `s`. */
  predicate IsSite(pass: Pass, s: Seg, t: Tree) {
    IsString(t) &&
    match pass
    case Normalise(pathLike, absolute) => pathLike(t.value.text) && absolute(t.value.text) != t.value.text
    case ResolveRefs(matches, _) => s.Key? && matches(s.key)
  }

  function KeyOf(pass: Pass): string {
    if pass.Normalise? then "" else SERVICE_REF_NEW_KEY
  }

  function ValueOf(pass: Pass, text: string): Tree {
    match pass
    case Normalise(_, absolute) => Leaf(Str(absolute(text)))
    case ResolveRefs(_, lookup) => if lookup(text).Some? then lookup(text).value else NONE_LEAF
  }

  function Edit(pass: Pass): Tree -> Tree {
    t => if IsString(t) then NewValue(t, ValueOf(pass, t.value.text)) else t
  }

  /** No dictionary has two keys to rename to the same name, or one besides a key of that name. */
  predicate NoClash(pass: Pass, t: Tree) {
    match t
    case Leaf(_) => true
    case List(items) => forall i :: 0 <= i < |items| ==> NoClash(pass, items[i])
    case Dict(fields) =>
      && (forall k :: k in fields ==> NoClash(pass, fields[k]))
      && (pass.ResolveRefs? ==> OneReference(pass, fields))
  }

  predicate OneReference(pass: Pass, fields: map<string, Tree>) {
    && (forall k :: k in fields && IsSite(pass, Key(k), fields[k]) ==>
          k == SERVICE_REF_NEW_KEY || SERVICE_REF_NEW_KEY !in fields)
    && (forall j, k ::
          j in fields && k in fields && IsSite(pass, Key(j), fields[j]) && IsSite(pass, Key(k), fields[k]) ==> j == k)
  }

  /** The reference for both passes: plain recursion over the tree. */
  function Mapped(pass: Pass, t: Tree): Tree
    requires NoClash(pass, t)
  {
    match t
    case Leaf(_) => t
    case List(items) =>
      List(seq(|items|, i requires 0 <= i < |items| =>
        if IsSite(pass, Index(i), items[i]) then Edit(pass)(items[i]) else Mapped(pass, items[i])))
    case Dict(fields) =>
      var kept := map k | k in fields && !IsSite(pass, Key(k), fields[k]) :: Mapped(pass, fields[k]);
      Dict(kept + Replaced(pass, fields))
  }

  function Replaced(pass: Pass, fields: map<string, Tree>): map<string, Tree>
    requires pass.ResolveRefs? ==> OneReference(pass, fields)
  {
    map k | k in fields && IsSite(pass, Key(k), fields[k]) :: NewName(k, KeyOf(pass)) := Edit(pass)(fields[k])
  }

  /**
   * What replacing a reference means: its entry goes, and a `connection` entry has the service, or the reference still
   * if no service is found. Every other entry stays under its key, and no further entry comes up.
   */
  lemma ReferencesReplaced(matches: string -> bool, lookup: string -> Option<Tree>, fields: map<string, Tree>)
    requires NoClash(ResolveRefs(matches, lookup), Dict(fields))
    ensures var pass := ResolveRefs(matches, lookup);
      var after := Mapped(pass, Dict(fields)).fields;
      && (forall k :: k in fields && fields[k].Leaf? && fields[k].value.Str? && matches(k) ==>
            && "connection" in after && (k in after <==> k == "connection")
            && after["connection"] ==
                 match lookup(fields[k].value.text)
                 case None => fields[k]
                 case Some(service) => if service == Leaf(Null) then fields[k] else service)
      && (forall k :: k in fields && !(fields[k].Leaf? && fields[k].value.Str? && matches(k)) ==>
            k in after && after[k] == Mapped(pass, fields[k]))
      && (forall k :: k in after ==> k in fields || k == "connection")
  {
    var pass := ResolveRefs(matches, lookup);
    forall k | k in fields && IsSite(pass, Key(k), fields[k])
      ensures NewName(k, KeyOf(pass)) == "connection" && "connection" in Replaced(pass, fields)
      ensures Replaced(pass, fields)["connection"] == Edit(pass)(fields[k])
    {
    }
  }

  /** What `resolve_strings` is for: every path-like string in its absolute form, and nothing else changed. */
  function Normalised(pathLike: string -> bool, absolute: string -> string, t: Tree): Tree {
    match t
    case Leaf(Str(text)) => if pathLike(text) then Leaf(Str(absolute(text))) else t
    case Leaf(_) => t
    case List(items) => List(seq(|items|, i requires 0 <= i < |items| => Normalised(pathLike, absolute, items[i])))
    case Dict(fields) => Dict(map k | k in fields :: Normalised(pathLike, absolute, fields[k]))
  }

  // ----- All edits together are the recursive map

  /** `d` are the paths to the nodes that the pass edits. */
  ghost predicate AllSites(pass: Pass, t: Tree, d: set<Path>) {
    forall p :: p in d <==> p != [] && HasPath(t, p) && IsSite(pass, p[|p| - 1], At(t, p))
  }

  lemma AtStep(t: Tree, s: Seg, p: Path)
    ensures HasPath(t, [s] + p) <==> HasChild(t, s) && HasPath(Child(t, s), p)
    ensures HasPath(t, [s] + p) ==> At(t, [s] + p) == At(Child(t, s), p)
  {
    assert ([s] + p)[1..] == p;
  }

  lemma SitesBelow(pass: Pass, t: Tree, d: set<Path>, s: Seg)
    requires AllSites(pass, t, d) && HasChild(t, s)
    ensures [s] in d <==> IsSite(pass, s, Child(t, s))
    ensures [s] !in d ==> AllSites(pass, Child(t, s), Tails(d, s))
  {
    forall p
      ensures p in Tails(d, s) <==> HasPath(Child(t, s), p) && IsSite(pass, ([s] + p)[|p|], At(Child(t, s), p))
    {
      TailsMember(d, s, p);
      AtStep(t, s, p);
    }
    AtStep(t, s, []);
    assert [s] + [] == [s];
  }

  lemma SiteIsLeaf(pass: Pass, t: Tree, d: set<Path>, s: Seg, e: set<Path>)
    requires AllSites(pass, t, d) && HasChild(t, s) && [s] in d
    ensures NoClash(pass, Child(t, s)) && Apart(Child(t, s), e, KeyOf(pass))
  {
    SitesBelow(pass, t, d, s);
  }

  /** The edits of a pass stay apart exactly when no two keys clash. */
  lemma {:induction false} ApartIffNoClash(pass: Pass, t: Tree, d: set<Path>)
    requires AllSites(pass, t, d)
    ensures Apart(t, d, KeyOf(pass)) <==> NoClash(pass, t)
    decreases t
  {
    match t
    case Leaf(_) =>
    case List(items) =>
      forall i | 0 <= i < |items|
        ensures Apart(items[i], Tails(d, Index(i)), KeyOf(pass)) <==> NoClash(pass, items[i])
      {
        BelowIffNoClash(pass, t, d, Index(i));
      }
    case Dict(fields) =>
      forall k | k in fields
        ensures Apart(fields[k], Tails(d, Key(k)), KeyOf(pass)) <==> NoClash(pass, fields[k])
        ensures [Key(k)] in d <==> IsSite(pass, Key(k), fields[k])
      {
        BelowIffNoClash(pass, t, d, Key(k));
        SitesBelow(pass, t, d, Key(k));
      }
      NamesIffOneReference(pass, fields, d);
  }

  lemma BelowIffNoClash(pass: Pass, t: Tree, d: set<Path>, s: Seg)
    requires AllSites(pass, t, d) && HasChild(t, s)
    ensures Apart(Child(t, s), Tails(d, s), KeyOf(pass)) <==> NoClash(pass, Child(t, s))
    decreases t, 0
  {
    SitesBelow(pass, t, d, s);
    if [s] in d {
      SiteIsLeaf(pass, t, d, s, Tails(d, s));
    } else {
      ApartIffNoClash(pass, Child(t, s), Tails(d, s));
    }
  }

  lemma NamesIffOneReference(pass: Pass, fields: map<string, Tree>, d: set<Path>)
    requires forall k :: k in fields ==> ([Key(k)] in d <==> IsSite(pass, Key(k), fields[k]))
    ensures
      && (forall k :: k in fields && [Key(k)] in d ==>
            NewName(k, KeyOf(pass)) == k || NewName(k, KeyOf(pass)) !in fields)
      && DistinctNames(fields, d, KeyOf(pass))
      <==> (pass.ResolveRefs? ==> OneReference(pass, fields))
  {
  }

  /** A child in the edited tree is the child of the reference, whether it is a site or not. */
  lemma ChildIsMapped(pass: Pass, t: Tree, d: set<Path>, s: Seg)
    requires AllSites(pass, t, d) && HasChild(t, s) && NoClash(pass, Child(t, s)) && [s] !in d
    ensures Apart(Child(t, s), Tails(d, s), KeyOf(pass))
    ensures Edited(Child(t, s), Tails(d, s), KeyOf(pass), Edit(pass)) == Mapped(pass, Child(t, s))
    decreases t, 0
  {
    SitesBelow(pass, t, d, s);
    ApartIffNoClash(pass, Child(t, s), Tails(d, s));
    EditedIsMapped(pass, Child(t, s), Tails(d, s));
  }

  lemma {:induction false} EditedIsMapped(pass: Pass, t: Tree, d: set<Path>)
    requires AllSites(pass, t, d) && NoClash(pass, t) && Apart(t, d, KeyOf(pass))
    ensures Edited(t, d, KeyOf(pass), Edit(pass)) == Mapped(pass, t)
    decreases t
  {
    match t
    case Leaf(_) =>
    case List(items) =>
      forall i | 0 <= i < |items|
        ensures Edited(t, d, KeyOf(pass), Edit(pass)).items[i] == Mapped(pass, t).items[i]
      {
        SitesBelow(pass, t, d, Index(i));
        if [Index(i)] !in d {
          ChildIsMapped(pass, t, d, Index(i));
        }
      }
    case Dict(fields) =>
      forall k | k in fields
        ensures [Key(k)] in d <==> IsSite(pass, Key(k), fields[k])
        ensures [Key(k)] !in d ==>
          Edited(fields[k], Tails(d, Key(k)), KeyOf(pass), Edit(pass)) == Mapped(pass, fields[k])
      {
        SitesBelow(pass, t, d, Key(k));
        if [Key(k)] !in d {
          ChildIsMapped(pass, t, d, Key(k));
        }
      }
      FieldsAreMapped(pass, fields, d);
  }

  lemma FieldsAreMapped(pass: Pass, fields: map<string, Tree>, d: set<Path>)
    requires NoClash(pass, Dict(fields)) && Apart(Dict(fields), d, KeyOf(pass))
    requires forall k :: k in fields ==> ([Key(k)] in d <==> IsSite(pass, Key(k), fields[k]))
    requires forall k :: k in fields && [Key(k)] !in d ==>
      Edited(fields[k], Tails(d, Key(k)), KeyOf(pass), Edit(pass)) == Mapped(pass, fields[k])
    ensures Edited(Dict(fields), d, KeyOf(pass), Edit(pass)) == Mapped(pass, Dict(fields))
  {
    var kept := map k | k in fields && !IsSite(pass, Key(k), fields[k]) :: Mapped(pass, fields[k]);
    assert KeptFields(Dict(fields), d, KeyOf(pass), Edit(pass)) == kept;
    NewFieldsAreReplaced(pass, fields, d);
  }

  lemma NewFieldsAreReplaced(pass: Pass, fields: map<string, Tree>, d: set<Path>)
    requires DistinctNames(fields, d, KeyOf(pass)) && (pass.ResolveRefs? ==> OneReference(pass, fields))
    requires forall k :: k in fields ==> ([Key(k)] in d <==> IsSite(pass, Key(k), fields[k]))
    ensures NewFields(fields, d, KeyOf(pass), Edit(pass)) == Replaced(pass, fields)
  {
  }

  lemma ChildIsNormalised(pathLike: string -> bool, absolute: string -> string, t: Tree, s: Seg)
    requires HasChild(t, s)
    ensures var pass, child := Normalise(pathLike, absolute), Child(t, s);
      && NoClash(pass, child)
      && Normalised(pathLike, absolute, child)
           == if IsSite(pass, s, child) then Edit(pass)(child) else Mapped(pass, child)
    decreases t, 0
  {
    NormaliseNeverClashes(pathLike, absolute, Child(t, s));
  }

  /** Normalising has no clashes, and as a recursive map it makes every path-like string below the top absolute. */
  lemma {:induction false} NormaliseNeverClashes(pathLike: string -> bool, absolute: string -> string, t: Tree)
    ensures NoClash(Normalise(pathLike, absolute), t)
    ensures IsString(t) || Mapped(Normalise(pathLike, absolute), t) == Normalised(pathLike, absolute, t)
    decreases t
  {
    var pass := Normalise(pathLike, absolute);
    match t
    case Leaf(_) =>
    case List(items) =>
      forall i | 0 <= i < |items|
        ensures NoClash(pass, items[i])
        ensures Normalised(pathLike, absolute, items[i])
             == if IsSite(pass, Index(i), items[i]) then Edit(pass)(items[i]) else Mapped(pass, items[i])
      {
        ChildIsNormalised(pathLike, absolute, t, Index(i));
      }
      assert Mapped(pass, t).items == Normalised(pathLike, absolute, t).items;
    case Dict(fields) =>
      forall k | k in fields
        ensures NoClash(pass, fields[k])
        ensures Normalised(pathLike, absolute, fields[k])
             == if IsSite(pass, Key(k), fields[k]) then Edit(pass)(fields[k]) else Mapped(pass, fields[k])
      {
        ChildIsNormalised(pathLike, absolute, t, Key(k));
      }
      assert Mapped(pass, t).fields == Normalised(pathLike, absolute, t).fields;
  }
}
