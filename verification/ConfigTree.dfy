/**
 * Configuration trees of dictionaries, lists and scalars, and the paths into them. A path leads from a node to a node
 * below it, and the paths of a set that pass through one child are, without their first segment, paths of that child.
 */
module ConfigTree {
  import opened PathSyntax

  datatype Scalar = Null | Str(text: string) | Other(n: int)

  datatype Tree = Leaf(value: Scalar) | List(items: seq<Tree>) | Dict(fields: map<string, Tree>)

  const NONE_LEAF := Leaf(Null)

  /** What flattening keeps as one entry: a scalar or an empty container. */
  predicate LeafLike(t: Tree) {
    t.Leaf? || t == List([]) || t == Dict(map[])
  }

  predicate HasChild(t: Tree, s: Seg) {
    match s
    case Key(k) => t.Dict? && k in t.fields
    case Index(i) => t.List? && i < |t.items|
  }

  function Child(t: Tree, s: Seg): Tree
    requires HasChild(t, s)
  {
    match s
    case Key(k) => t.fields[k]
    case Index(i) => t.items[i]
  }

  predicate HasPath(t: Tree, p: Path) {
    p == [] || (HasChild(t, p[0]) && HasPath(Child(t, p[0]), p[1..]))
  }

  function At(t: Tree, p: Path): Tree
    requires HasPath(t, p)
  {
    if p == [] then t else At(Child(t, p[0]), p[1..])
  }

  predicate WellFormed(t: Tree) {
    match t
    case Leaf(_) => true
    case List(items) => forall i :: 0 <= i < |items| ==> WellFormed(items[i])
    case Dict(fields) => forall k :: k in fields ==> ValidKey(k) && WellFormed(fields[k])
  }

  /** The paths to all nodes. */
  function Nodes(t: Tree): set<Path> {
    match t
    case Leaf(_) => {[]}
    case List(items) => {[]} + set i, p | 0 <= i < |items| && p in Nodes(items[i]) :: [Index(i)] + p
    case Dict(fields) => {[]} + set k, p | k in fields && p in Nodes(fields[k]) :: [Key(k)] + p
  }

  lemma {:induction false} NodesArePaths(t: Tree, p: Path)
    ensures p in Nodes(t) <==> HasPath(t, p)
    decreases p
  {
    if p != [] {
      var s, rest := p[0], p[1..];
      assert p == [s] + rest;
      if HasChild(t, s) {
        NodesArePaths(Child(t, s), rest);
      }
    }
  }

  lemma {:induction false} PathsAreValid(t: Tree, p: Path)
    requires WellFormed(t) && HasPath(t, p)
    ensures WellFormed(At(t, p))
    ensures forall i :: 0 <= i < |p| ==> ValidSeg(p[i])
  {
    if p != [] {
      PathsAreValid(Child(t, p[0]), p[1..]);
    }
  }

  // ----- Sets of paths

  function Tails(d: set<Path>, s: Seg): set<Path> {
    set p | p in d && p != [] && p[0] == s :: p[1..]
  }

  lemma TailsMember(d: set<Path>, s: Seg, rest: Path)
    ensures rest in Tails(d, s) <==> [s] + rest in d
  {
    var p := [s] + rest;
    assert p[1..] == rest;
    if rest in Tails(d, s) {
      var q :| q in d && q != [] && q[0] == s && q[1..] == rest;
      assert q == p;
    }
  }

  /** Adding a path adds its tail below its first segment, and changes nothing below the others. */
  lemma TailsAdd(d: set<Path>, p: Path, s: Seg)
    requires p != []
    ensures Tails(d + {p}, s) == if p[0] == s then Tails(d, s) + {p[1..]} else Tails(d, s)
  {
    forall rest
      ensures rest in Tails(d + {p}, s) <==> rest in (if p[0] == s then Tails(d, s) + {p[1..]} else Tails(d, s))
    {
      TailsMember(d + {p}, s, rest);
      TailsMember(d, s, rest);
      assert p == [p[0]] + p[1..];
    }
  }
}
