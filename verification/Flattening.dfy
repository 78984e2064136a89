/** Flattening a tree into path entries and rebuilding it from them in any order (libs/utils/dict.py). */
module Flattening {
  import opened Texts
  import opened PathSyntax
  import opened ConfigTree

  // ----- Rebuilding

  function NewContainer(next: Seg): Tree {
    if next.Index? then List([]) else Dict(map[])
  }

  /** The list, extended with None up to index `i`. */
  function Stretched(items: seq<Tree>, i: nat): (r: seq<Tree>)
    ensures |r| == if |items| > i then |items| else i + 1
    ensures forall j :: 0 <= j < |r| ==> r[j] == if j < |items| then items[j] else NONE_LEAF
  {
    if |items| > i then items else items + seq(i + 1 - |items|, _ => NONE_LEAF)
  }

  /** Storing one entry, creating the containers on the way; None where the code raises. */
  function Put(t: Tree, p: Path, value: Tree): Option<Tree>
    requires p != []
    decreases |p|
  {
    var rest := p[1..];
    match (t, p[0])
    case (List(items), Index(i)) =>
      var stretched := Stretched(items, i);
      if rest == [] then Some(List(stretched[i := value]))
      else
        var child := if stretched[i] == NONE_LEAF then NewContainer(rest[0]) else stretched[i];
        (match Put(child, rest, value)
         case Some(c) => Some(List(stretched[i := c]))
         case None => None)
    case (Dict(fields), Key(k)) =>
      if rest == [] then Some(Dict(fields[k := value]))
      else
        var child := if k in fields then fields[k] else NewContainer(rest[0]);
        (match Put(child, rest, value)
         case Some(c) => Some(Dict(fields[k := c]))
         case None => None)
    case _ => None
  }

  /** A stored entry is found at its path. */
  lemma {:induction false} PutReaches(t: Tree, p: Path, value: Tree)
    requires p != [] && Put(t, p, value).Some?
    ensures HasPath(Put(t, p, value).value, p) && At(Put(t, p, value).value, p) == value
    decreases |p|
  {
    var rest := p[1..];
    if rest != [] {
      match (t, p[0])
      case (List(items), Index(i)) =>
        var was := Stretched(items, i)[i];
        PutReaches(if was == NONE_LEAF then NewContainer(rest[0]) else was, rest, value);
      case (Dict(fields), Key(k)) =>
        PutReaches(if k in fields then fields[k] else NewContainer(rest[0]), rest, value);
    }
  }

  /** Storing an entry leaves every node as it is whose path parts from the entry's. */
  lemma {:induction false} PutElsewhere(t: Tree, p: Path, value: Tree, q: Path, n: nat)
    requires HasPath(t, q) && n < |p| && n < |q| && p[..n] == q[..n] && p[n] != q[n] && Put(t, p, value).Some?
    ensures HasPath(Put(t, p, value).value, q) && At(Put(t, p, value).value, q) == At(t, q)
    decreases n
  {
    if n > 0 {
      assert p[0] == p[..n][0] == q[..n][0] == q[0];
      assert p[1..][..n - 1] == p[..n][1..] && q[1..][..n - 1] == q[..n][1..];
      PutElsewhere(Child(t, p[0]), p[1..], value, q[1..], n - 1);
    }
  }

  predicate IsContainerFor(t: Tree, s: Seg) {
    if s.Key? then t.Dict? else t.List?
  }

  /**
   * The node after `n` segments is there and cannot take the next one; a None in a list would give way to a container.
   */
  predicate BlocksAt(t: Tree, p: Path, n: nat)
    requires n < |p|
  {
    && HasPath(t, p[..n]) && !IsContainerFor(At(t, p[..n]), p[n])
    && !(n > 0 && p[n - 1].Index? && At(t, p[..n]) == NONE_LEAF)
  }

  lemma BlocksBelow(t: Tree, p: Path, n: nat)
    requires 0 < n < |p|
    ensures BlocksAt(t, p, n) <==>
      && HasChild(t, p[0]) && BlocksAt(Child(t, p[0]), p[1..], n - 1)
      && !(n == 1 && p[0].Index? && Child(t, p[0]) == NONE_LEAF)
  {
    assert p[..n][1..] == p[1..][..n - 1];
  }

  ghost predicate Blocked(t: Tree, p: Path) {
    exists n :: 0 <= n < |p| && BlocksAt(t, p, n)
  }

  lemma BlockedBelow(t: Tree, p: Path)
    requires |p| > 1
    ensures Blocked(t, p) <==>
      || !IsContainerFor(t, p[0])
      || (HasChild(t, p[0]) && Blocked(Child(t, p[0]), p[1..]) && !(p[0].Index? && Child(t, p[0]) == NONE_LEAF))
  {
    assert p[..0] == [] && BlocksAt(t, p, 0) == !IsContainerFor(t, p[0]);
    forall n | 0 < n < |p|
      ensures BlocksAt(t, p, n) <==>
        && HasChild(t, p[0]) && BlocksAt(Child(t, p[0]), p[1..], n - 1)
        && !(n == 1 && p[0].Index? && Child(t, p[0]) == NONE_LEAF)
    {
      BlocksBelow(t, p, n);
    }
    if HasChild(t, p[0]) && Blocked(Child(t, p[0]), p[1..]) && !(p[0].Index? && Child(t, p[0]) == NONE_LEAF) {
      var m :| 0 <= m < |p[1..]| && BlocksAt(Child(t, p[0]), p[1..], m);
      assert BlocksAt(t, p, m + 1);
    }
    if HasChild(t, p[0]) && p[0].Index? && Child(t, p[0]) == NONE_LEAF {
      forall m | 0 < m < |p[1..]|
        ensures !BlocksAt(Child(t, p[0]), p[1..], m)
      {
      }
    }
  }

  /**
   * Exactly when storing raises: some node on the way, that is there already, is not a container for the next segment.
   */
  lemma {:induction false} PutRaises(t: Tree, p: Path, value: Tree)
    requires p != []
    ensures Put(t, p, value) == None <==> Blocked(t, p)
    decreases |p|
  {
    if |p| == 1 {
      assert p[..0] == [] && BlocksAt(t, p, 0) == !IsContainerFor(t, p[0]);
    } else {
      var rest := p[1..];
      BlockedBelow(t, p);
      PutRaises(NewContainer(rest[0]), rest, value);
      NewContainerTakes(rest);
      if HasChild(t, p[0]) {
        PutRaises(Child(t, p[0]), rest, value);
      }
    }
  }

  lemma NewContainerTakes(p: Path)
    requires p != []
    ensures !Blocked(NewContainer(p[0]), p)
  {
    assert p[..0] == [];
    forall n | 0 < n < |p|
      ensures !BlocksAt(NewContainer(p[0]), p, n)
    {
      assert p[..n][0] == p[0];
    }
  }

  // ----- The part of a tree that some of its leaf paths make up

  predicate Touched(d: set<Path>, s: Seg) {
    exists p :: p in d && p != [] && p[0] == s
  }

  /** One more than the last touched index below `n`. */
  function Extent(d: set<Path>, n: nat): (m: nat)
    ensures m <= n && (m > 0 ==> Touched(d, Index(m - 1)))
    ensures forall i :: m <= i < n ==> !Touched(d, Index(i))
  {
    if n == 0 then 0 else if Touched(d, Index(n - 1)) then n else Extent(d, n - 1)
  }

  function Part(t: Tree, d: set<Path>): Tree {
    if LeafLike(t) then t
    else
      match t
      case List(items) =>
        List(seq(Extent(d, |items|), i requires 0 <= i < |items| =>
          if Touched(d, Index(i)) then Part(items[i], Tails(d, Index(i))) else NONE_LEAF))
      case Dict(fields) =>
        Dict(map k | k in fields && Touched(d, Key(k)) :: Part(fields[k], Tails(d, Key(k))))
  }

  predicate IsLeafPath(t: Tree, p: Path) {
    HasPath(t, p) && LeafLike(At(t, p))
  }

  lemma TouchedAdd(d: set<Path>, p: Path, s: Seg)
    requires p != []
    ensures Touched(d + {p}, s) <==> Touched(d, s) || p[0] == s
  {
    if p[0] == s {
      assert p in d + {p};
    }
    if Touched(d, s) {
      var q :| q in d && q != [] && q[0] == s;
      assert q in d + {p};
    }
  }

  /** The child of a partial tree as `Put` finds it: there already, or a new container. */
  function ChildBefore(child: Tree, d: set<Path>, s: Seg, next: Seg): Tree {
    if Touched(d, s) then Part(child, Tails(d, s)) else NewContainer(next)
  }

  lemma PutInDict(fields: map<string, Tree>, d: set<Path>, k: string, rest: Path, value: Tree)
    requires k in fields
    requires rest == [] ==> value == Part(fields[k], Tails(d, Key(k)) + {rest})
    requires rest != [] ==>
      Put(ChildBefore(fields[k], d, Key(k), rest[0]), rest, value) == Some(Part(fields[k], Tails(d, Key(k)) + {rest}))
    ensures Put(Part(Dict(fields), d), [Key(k)] + rest, value) == Some(Part(Dict(fields), d + {[Key(k)] + rest}))
  {
    var p := [Key(k)] + rest;
    var before, after := Part(Dict(fields), d).fields, Part(Dict(fields), d + {p}).fields;
    assert p[1..] == rest;
    forall other | other in fields
      ensures other in after <==> other in before || other == k
      ensures other in after ==>
        after[other] == (if other == k then Part(fields[k], Tails(d, Key(k)) + {rest}) else before[other])
    {
      TouchedAdd(d, p, Key(other));
      TailsAdd(d, p, Key(other));
    }
    assert after == before[k := Part(fields[k], Tails(d, Key(k)) + {rest})];
  }

  lemma ListPartAdds(items: seq<Tree>, d: set<Path>, i: nat, rest: Path)
    requires i < |items|
    ensures var p := [Index(i)] + rest;
      Part(List(items), d + {p}).items
        == Stretched(Part(List(items), d).items, i)[i := Part(items[i], Tails(d, Index(i)) + {rest})]
  {
    var p := [Index(i)] + rest;
    assert p[1..] == rest;
    forall j | 0 <= j < |items|
      ensures Touched(d + {p}, Index(j)) <==> Touched(d, Index(j)) || j == i
      ensures Tails(d + {p}, Index(j)) == if j == i then Tails(d, Index(j)) + {rest} else Tails(d, Index(j))
    {
      TouchedAdd(d, p, Index(j));
      TailsAdd(d, p, Index(j));
    }
    assert |Part(List(items), d + {p}).items| == |Stretched(Part(List(items), d).items, i)|;
  }

  lemma PutInList(items: seq<Tree>, d: set<Path>, i: nat, rest: Path, value: Tree)
    requires i < |items|
    requires rest == [] ==> value == Part(items[i], Tails(d, Index(i)) + {rest})
    requires rest != [] ==> items[i] != NONE_LEAF
    requires rest != [] ==>
      Put(ChildBefore(items[i], d, Index(i), rest[0]), rest, value) == Some(Part(items[i], Tails(d, Index(i)) + {rest}))
    ensures Put(Part(List(items), d), [Index(i)] + rest, value) == Some(Part(List(items), d + {[Index(i)] + rest}))
  {
    var p := [Index(i)] + rest;
    var before := Part(List(items), d).items;
    assert p[1..] == rest;
    ListPartAdds(items, d, i, rest);
    if rest != [] && i < |before| && Touched(d, Index(i)) {
      assert before[i] == Part(items[i], Tails(d, Index(i)));
    }
  }

  /** Replaying one more leaf extends the part of the tree by exactly that leaf. */
  lemma {:induction false} PutExtendsPart(t: Tree, d: set<Path>, p: Path)
    requires p != [] && IsLeafPath(t, p)
    ensures Put(Part(t, d), p, At(t, p)) == Some(Part(t, d + {p}))
    decreases p
  {
    var s, rest := p[0], p[1..];
    var child := Child(t, s);
    assert p == [s] + rest;
    if rest != [] {
      PutExtendsPart(child, Tails(d, s), rest);
    }
    match s
    case Key(k) => PutInDict(t.fields, d, k, rest, At(t, p));
    case Index(i) => PutInList(t.items, d, i, rest, At(t, p));
  }

  // ----- All leaves together

  ghost predicate AllLeaves(t: Tree, d: set<Path>) {
    forall p :: p in d <==> IsLeafPath(t, p)
  }

  lemma {:induction false} SomeLeaf(t: Tree) returns (p: Path)
    ensures IsLeafPath(t, p)
  {
    if LeafLike(t) {
      p := [];
    } else {
      var s: Seg;
      match t {
        case List(items) => s := Index(0);
        case Dict(fields) =>
          var k :| k in fields;
          s := Key(k);
      }
      p := SomeLeaf(Child(t, s));
      assert ([s] + p)[1..] == p;
      p := [s] + p;
    }
  }

  lemma ChildHasAllLeaves(t: Tree, d: set<Path>, s: Seg)
    requires AllLeaves(t, d) && !LeafLike(t) && HasChild(t, s)
    ensures AllLeaves(Child(t, s), Tails(d, s)) && Touched(d, s)
  {
    forall rest
      ensures rest in Tails(d, s) <==> IsLeafPath(Child(t, s), rest)
    {
      TailsMember(d, s, rest);
      assert ([s] + rest)[1..] == rest;
      assert IsLeafPath(t, [s] + rest) <==> IsLeafPath(Child(t, s), rest);
    }
    var rest := SomeLeaf(Child(t, s));
    TailsMember(d, s, rest);
    assert [s] + rest in d;
  }

  lemma {:induction false} PartOfAllLeaves(t: Tree, d: set<Path>)
    requires AllLeaves(t, d)
    ensures Part(t, d) == t
    decreases t
  {
    if !LeafLike(t) {
      match t
      case List(items) =>
        forall i | 0 <= i < |items|
          ensures Touched(d, Index(i)) && Part(items[i], Tails(d, Index(i))) == items[i]
        {
          ChildHasAllLeaves(t, d, Index(i));
          PartOfAllLeaves(items[i], Tails(d, Index(i)));
        }
        assert Part(t, d).items == items;
      case Dict(fields) =>
        forall k | k in fields
          ensures Touched(d, Key(k)) && Part(fields[k], Tails(d, Key(k))) == fields[k]
        {
          ChildHasAllLeaves(t, d, Key(k));
          PartOfAllLeaves(fields[k], Tails(d, Key(k)));
        }
        assert Part(t, d).fields == fields;
    }
  }

  // ----- Flattening

  /** The entries are the leaves of `t`, each under its printed path, which continues `prefix`. */
  ghost predicate IsFlat(flat: map<string, Tree>, t: Tree, prefix: Path) {
    && (forall p :: IsLeafPath(t, p) && prefix + p != [] ==>
          Render(prefix + p) in flat && flat[Render(prefix + p)] == At(t, p))
    && (forall key :: key in flat ==> exists p :: IsLeafPath(t, p) && prefix + p != [] && key == Render(prefix + p))
  }

  /** The entries in some order, as iterating over a dictionary delivers them. */
  ghost predicate Lists(entries: seq<(string, Tree)>, flat: map<string, Tree>) {
    && (forall i :: 0 <= i < |entries| ==> entries[i].0 in flat && flat[entries[i].0] == entries[i].1)
    && (forall key :: key in flat ==> exists i :: 0 <= i < |entries| && entries[i].0 == key)
  }

  /** Replaying entries from the left; None where the code raises. */
  function Replay(entries: seq<(string, Tree)>): Option<Tree> {
    if entries == [] then Some(Dict(map[]))
    else
      var last := entries[|entries| - 1];
      match (Replay(entries[..|entries| - 1]), Parse(last.0))
      case (Some(t), Some(p)) => if p == [] then None else Put(t, p, last.1)
      case _ => None
  }

  method UnflattenDict(entries: seq<(string, Tree)>) returns (result: Option<Tree>)
    ensures result == Replay(entries)
  {
    var current := Dict(map[]);
    for n := 0 to |entries|
      invariant Replay(entries[..n]) == Some(current)
    {
      assert entries[..n + 1][..n] == entries[..n];
      var p := ParsePath(entries[n].0);
      var next := if p == None || p == Some([]) then None else Put(current, p.value, entries[n].1);
      if next == None {
        ReplayStaysFailed(entries, n + 1);
        return None;
      }
      current := next.value;
    }
    assert entries[..|entries|] == entries;
    result := Some(current);
  }

  lemma {:induction false} ReplayStaysFailed(entries: seq<(string, Tree)>, n: nat)
    requires n <= |entries| && Replay(entries[..n]) == None
    ensures Replay(entries) == None
    decreases |entries|
  {
    if n == |entries| {
      assert entries[..n] == entries;
    } else {
      var init := entries[..|entries| - 1];
      assert init[..n] == entries[..n];
      ReplayStaysFailed(init, n);
    }
  }

  lemma LeafPathIsValid(t: Tree, p: Path)
    requires t.Dict? && WellFormed(t) && HasPath(t, p) && p != []
    ensures ValidPath(p)
  {
    PathsAreValid(t, p);
  }

  /** The paths the entries stand for. */
  function Covered(entries: seq<(string, Tree)>): set<Path> {
    set i | 0 <= i < |entries| && Parse(entries[i].0).Some? :: Parse(entries[i].0).value
  }

  lemma EntryIsLeaf(t: Tree, flat: map<string, Tree>, key: string) returns (p: Path)
    requires t.Dict? && WellFormed(t) && IsFlat(flat, t, []) && key in flat
    ensures p != [] && IsLeafPath(t, p) && flat[key] == At(t, p)
    ensures ValidPath(p) && key == Render(p) && Parse(key) == Some(p)
  {
    p :| IsLeafPath(t, p) && [] + p != [] && key == Render([] + p);
    assert [] + p == p;
    LeafPathIsValid(t, p);
    ParseOfRender(p);
  }

  lemma {:induction false} ReplayGivesPart(t: Tree, flat: map<string, Tree>, entries: seq<(string, Tree)>)
    requires t.Dict? && WellFormed(t) && !LeafLike(t) && IsFlat(flat, t, [])
    requires forall i :: 0 <= i < |entries| ==> entries[i].0 in flat && flat[entries[i].0] == entries[i].1
    ensures Replay(entries) == Some(Part(t, Covered(entries)))
  {
    if entries == [] {
      assert Part(t, {}) == Dict(map[]);
    } else {
      var init, last := entries[..|entries| - 1], entries[|entries| - 1];
      ReplayGivesPart(t, flat, init);
      var p := EntryIsLeaf(t, flat, last.0);
      PutExtendsPart(t, Covered(init), p);
      CoveredAdds(entries, p);
    }
  }

  lemma CoveredAdds(entries: seq<(string, Tree)>, p: Path)
    requires entries != [] && Parse(entries[|entries| - 1].0) == Some(p)
    ensures Covered(entries) == Covered(entries[..|entries| - 1]) + {p}
  {
    var init := entries[..|entries| - 1];
    forall q | q in Covered(init)
      ensures q in Covered(entries)
    {
      var i :| 0 <= i < |init| && Parse(init[i].0) == Some(q);
      assert entries[i] == init[i];
    }
    forall q | q in Covered(entries)
      ensures q in Covered(init) + {p}
    {
      var i :| 0 <= i < |entries| && Parse(entries[i].0) == Some(q);
      assert i < |init| ==> init[i] == entries[i];
    }
  }

  lemma CoveredIsLeaf(t: Tree, flat: map<string, Tree>, entries: seq<(string, Tree)>, p: Path)
    requires t.Dict? && WellFormed(t) && IsFlat(flat, t, []) && Lists(entries, flat) && p in Covered(entries)
    ensures IsLeafPath(t, p)
  {
    var i :| 0 <= i < |entries| && Parse(entries[i].0) == Some(p);
    var q := EntryIsLeaf(t, flat, entries[i].0);
  }

  lemma LeafIsCovered(t: Tree, flat: map<string, Tree>, entries: seq<(string, Tree)>, p: Path)
    requires t.Dict? && WellFormed(t) && IsFlat(flat, t, []) && Lists(entries, flat) && IsLeafPath(t, p) && p != []
    ensures p in Covered(entries)
  {
    assert [] + p == p;
    LeafPathIsValid(t, p);
    ParseOfRender(p);
    var i :| 0 <= i < |entries| && entries[i].0 == Render([] + p);
  }

  lemma CoversAllLeaves(t: Tree, flat: map<string, Tree>, entries: seq<(string, Tree)>)
    requires t.Dict? && WellFormed(t) && !LeafLike(t) && IsFlat(flat, t, []) && Lists(entries, flat)
    ensures AllLeaves(t, Covered(entries))
  {
    forall p
      ensures p in Covered(entries) <==> IsLeafPath(t, p)
    {
      if p in Covered(entries) {
        CoveredIsLeaf(t, flat, entries, p);
      } else if IsLeafPath(t, p) {
        LeafIsCovered(t, flat, entries, p);
      }
    }
  }

  /** Flattening and rebuilding gives back the tree, whatever the order in which the entries are replayed. */
  lemma {:induction false} RoundTrip(t: Tree, flat: map<string, Tree>, entries: seq<(string, Tree)>)
    requires t.Dict? && WellFormed(t) && IsFlat(flat, t, []) && Lists(entries, flat)
    ensures Replay(entries) == Some(t)
  {
    if LeafLike(t) {
      assert flat.Keys == {};
    } else {
      ReplayGivesPart(t, flat, entries);
      CoversAllLeaves(t, flat, entries);
      PartOfAllLeaves(t, Covered(entries));
    }
  }

  // ----- The recursive walk

  /** The nodes of `t` at the paths `d` are entered under their printed paths. */
  ghost predicate Entered(after: map<string, Tree>, t: Tree, prefix: Path, d: set<Path>) {
    forall p :: p in d ==>
      HasPath(t, p) && ValidPath(prefix + p) && Render(prefix + p) in after && after[Render(prefix + p)] == At(t, p)
  }

  ghost predicate OthersKept(before: map<string, Tree>, after: map<string, Tree>, prefix: Path, d: set<Path>) {
    forall key :: key in before && (forall p :: p in d ==> key != Render(prefix + p)) ==>
      key in after && after[key] == before[key]
  }

  ghost predicate NoOthersAdded(before: map<string, Tree>, after: map<string, Tree>, prefix: Path, d: set<Path>) {
    forall key :: key in after ==> key in before || exists p :: p in d && key == Render(prefix + p)
  }

  /** From `before` to `after` exactly the nodes of `t` at the paths `d` were entered. */
  ghost predicate Enters(before: map<string, Tree>, after: map<string, Tree>, t: Tree, prefix: Path, d: set<Path>) {
    Entered(after, t, prefix, d) && OthersKept(before, after, prefix, d) && NoOthersAdded(before, after, prefix, d)
  }

  function Leaves(t: Tree): set<Path> {
    set p | p in Nodes(t) && IsLeafPath(t, p)
  }

  /** The paths through the children `done`. */
  function Below(all: set<Path>, done: set<Seg>): set<Path> {
    set p | p in all && p != [] && p[0] in done
  }

  /** A node the walk may stand on: the top-level dictionary, or something behind a valid path. */
  ghost predicate CanVisit(node: Tree, prefix: Path) {
    WellFormed(node) && if prefix == [] then node.Dict? else ValidPath(prefix)
  }

  lemma BelowIsValid(node: Tree, prefix: Path, p: Path)
    requires CanVisit(node, prefix) && HasPath(node, p) && prefix + p != []
    ensures ValidPath(prefix + p)
  {
    PathsAreValid(node, p);
  }

  lemma ChildCanBeVisited(node: Tree, prefix: Path, s: Seg)
    requires CanVisit(node, prefix) && HasChild(node, s)
    ensures CanVisit(Child(node, s), prefix + [s])
    ensures BuildPath(Render(prefix), s) == Render(prefix + [s])
  {
    assert (prefix + [s])[..|prefix|] == prefix;
    assert HasPath(node, [s]) by {
      assert [s][1..] == [];
    }
    BelowIsValid(node, prefix, [s]);
  }

  lemma LeavesOfChild(node: Tree, s: Seg)
    requires HasChild(node, s)
    ensures Tails(Leaves(node), s) == Leaves(Child(node, s))
  {
    forall p
      ensures p in Tails(Leaves(node), s) <==> p in Leaves(Child(node, s))
    {
      TailsMember(Leaves(node), s, p);
      NodesArePaths(node, [s] + p);
      NodesArePaths(Child(node, s), p);
      assert ([s] + p)[1..] == p;
    }
  }

  lemma FromParent(prefix: Path, s: Seg, p: Path)
    requires p != [] && p[0] == s
    ensures prefix + [s] + p[1..] == prefix + p
  {
  }

  /** `all` are the paths `d` and, below the child `s`, the paths `rest`. */
  ghost predicate SplitsOff(all: set<Path>, d: set<Path>, s: Seg, rest: set<Path>) {
    && (forall p :: p in d ==> p in all && (p == [] || p[0] != s))
    && (forall p :: p in all ==> p in d || (p != [] && p[0] == s && p[1..] in rest))
    && (forall q :: q in rest ==> [s] + q in all)
  }

  lemma OtherChildDiffers(prefix: Path, s: Seg, p: Path, q: Path)
    requires (p == [] || p[0] != s) && ValidPath(prefix + p) && ValidPath(prefix + [s] + q)
    ensures Render(prefix + p) != Render(prefix + [s] + q)
  {
    assert p == [] || (prefix + p)[|prefix|] != (prefix + [s] + q)[|prefix|];
    if Render(prefix + p) == Render(prefix + [s] + q) {
      RenderIsInjective(prefix + p, prefix + [s] + q);
    }
  }

  lemma EnteredWithChild(mid: map<string, Tree>, after: map<string, Tree>, t: Tree, prefix: Path,
                         all: set<Path>, d: set<Path>, s: Seg, rest: set<Path>)
    requires HasChild(t, s) && SplitsOff(all, d, s, rest)
    requires Entered(mid, t, prefix, d)
    requires Entered(after, Child(t, s), prefix + [s], rest) && OthersKept(mid, after, prefix + [s], rest)
    ensures Entered(after, t, prefix, all)
  {
    forall p | p in all
      ensures HasPath(t, p) && ValidPath(prefix + p)
      ensures Render(prefix + p) in after && after[Render(prefix + p)] == At(t, p)
    {
      if p in d {
        forall q | q in rest
          ensures Render(prefix + p) != Render(prefix + [s] + q)
        {
          OtherChildDiffers(prefix, s, p, q);
        }
      } else {
        FromParent(prefix, s, p);
      }
    }
  }

  lemma KeptWithChild(before: map<string, Tree>, mid: map<string, Tree>, after: map<string, Tree>, prefix: Path,
                      all: set<Path>, d: set<Path>, s: Seg, rest: set<Path>)
    requires SplitsOff(all, d, s, rest)
    requires OthersKept(before, mid, prefix, d) && OthersKept(mid, after, prefix + [s], rest)
    ensures OthersKept(before, after, prefix, all)
  {
    forall key | key in before && (forall p :: p in all ==> key != Render(prefix + p))
      ensures key in after && after[key] == before[key]
    {
      forall q | q in rest
        ensures key != Render(prefix + [s] + q)
      {
        assert prefix + [s] + q == prefix + ([s] + q);
      }
    }
  }

  lemma AddedPath(before: map<string, Tree>, mid: map<string, Tree>, after: map<string, Tree>, prefix: Path,
                  all: set<Path>, d: set<Path>, s: Seg, rest: set<Path>, key: string) returns (p: Path)
    requires SplitsOff(all, d, s, rest)
    requires NoOthersAdded(before, mid, prefix, d) && NoOthersAdded(mid, after, prefix + [s], rest)
    requires key in after && key !in before
    ensures p in all && key == Render(prefix + p)
  {
    if key in mid {
      p :| p in d && key == Render(prefix + p);
    } else {
      var q :| q in rest && key == Render(prefix + [s] + q);
      p := [s] + q;
      assert prefix + [s] + q == prefix + p;
    }
  }

  lemma AddedWithChild(before: map<string, Tree>, mid: map<string, Tree>, after: map<string, Tree>, prefix: Path,
                       all: set<Path>, d: set<Path>, s: Seg, rest: set<Path>)
    requires SplitsOff(all, d, s, rest)
    requires NoOthersAdded(before, mid, prefix, d) && NoOthersAdded(mid, after, prefix + [s], rest)
    ensures NoOthersAdded(before, after, prefix, all)
  {
    forall key | key in after && key !in before
      ensures exists p :: p in all && key == Render(prefix + p)
    {
      var p := AddedPath(before, mid, after, prefix, all, d, s, rest, key);
    }
  }

  /** Entering the paths through one more child, after those through the children `done`. */
  lemma EntersChild(before: map<string, Tree>, mid: map<string, Tree>, after: map<string, Tree>,
                    node: Tree, prefix: Path, all: set<Path>, done: set<Seg>, s: Seg)
    requires HasChild(node, s) && s !in done
    requires Enters(before, mid, node, prefix, Below(all, done))
    requires Enters(mid, after, Child(node, s), prefix + [s], Tails(all, s))
    ensures Enters(before, after, node, prefix, Below(all, done + {s}))
  {
    ChildSplitsOff(all, done, s);
    EnteredWithChild(mid, after, node, prefix, Below(all, done + {s}), Below(all, done), s, Tails(all, s));
    KeptWithChild(before, mid, after, prefix, Below(all, done + {s}), Below(all, done), s, Tails(all, s));
    AddedWithChild(before, mid, after, prefix, Below(all, done + {s}), Below(all, done), s, Tails(all, s));
  }

  lemma ChildSplitsOff(all: set<Path>, done: set<Seg>, s: Seg)
    requires s !in done
    ensures SplitsOff(Below(all, done + {s}), Below(all, done), s, Tails(all, s))
  {
    forall q | q in Tails(all, s)
      ensures [s] + q in Below(all, done + {s})
    {
      TailsMember(all, s, q);
    }
  }

  lemma EntersLeaf(result: map<string, Tree>, node: Tree, prefix: Path)
    requires LeafLike(node) && ValidPath(prefix)
    ensures Enters(result, result[Render(prefix) := node], node, prefix, Leaves(node))
  {
    assert prefix + [] == prefix;
    forall p
      ensures p in Leaves(node) <==> p == []
    {
      NodesArePaths(node, p);
    }
  }

  lemma AllChildrenDone(node: Tree, all: set<Path>, done: set<Seg>)
    requires all <= Nodes(node) - {[]} && forall s :: HasChild(node, s) ==> s in done
    ensures Below(all, done) == all
  {
    forall p | p in all
      ensures p in Below(all, done)
    {
      NodesArePaths(node, p);
    }
  }

  /** The inner function `_flatten`. */
  method FlattenInto(node: Tree, ghost prefix: Path, path: string, result: map<string, Tree>)
    returns (after: map<string, Tree>)
    requires CanVisit(node, prefix) && path == Render(prefix)
    ensures node == Dict(map[]) && prefix == [] ==> after == result
    ensures node != Dict(map[]) || prefix != [] ==> Enters(result, after, node, prefix, Leaves(node))
    decreases node, 1
  {
    if prefix != [] {
      ParseOfRender(prefix);
    }
    if LeafLike(node) && path != "" {
      EntersLeaf(result, node, prefix);
      after := result[path := node];
    } else {
      match node
      case Dict(fields) => after := FlattenFields(node, prefix, path, result);
      case List(items) => after := FlattenItems(node, prefix, path, result);
    }
  }

  /** The loop over the items of a dictionary, which may come in any order. */
  method FlattenFields(node: Tree, ghost prefix: Path, path: string, result: map<string, Tree>)
    returns (after: map<string, Tree>)
    requires CanVisit(node, prefix) && path == Render(prefix) && node.Dict?
    ensures node == Dict(map[]) ==> after == result
    ensures node != Dict(map[]) ==> Enters(result, after, node, prefix, Leaves(node))
    decreases node, 0
  {
    after := result;
    ghost var done: set<Seg> := {};
    var todo := node.fields.Keys;
    while todo != {}
      invariant todo <= node.fields.Keys && (node.fields == map[] ==> after == result)
      invariant forall s :: s in done <==> HasChild(node, s) && s.key !in todo
      invariant Enters(result, after, node, prefix, Below(Leaves(node), done))
    {
      var k :| k in todo;
      ChildCanBeVisited(node, prefix, Key(k));
      ghost var mid := after;
      after := FlattenInto(node.fields[k], prefix + [Key(k)], BuildPath(path, Key(k)), after);
      LeavesOfChild(node, Key(k));
      EntersChild(result, mid, after, node, prefix, Leaves(node), done, Key(k));
      done, todo := done + {Key(k)}, todo - {k};
    }
    if node.fields != map[] {
      AllChildrenDone(node, Leaves(node), done);
    }
  }

  method FlattenItems(node: Tree, ghost prefix: Path, path: string, result: map<string, Tree>)
    returns (after: map<string, Tree>)
    requires CanVisit(node, prefix) && path == Render(prefix) && node.List? && node.items != []
    ensures Enters(result, after, node, prefix, Leaves(node))
    decreases node, 0
  {
    after := result;
    ghost var done: set<Seg> := {};
    for i := 0 to |node.items|
      invariant forall s :: s in done <==> HasChild(node, s) && s.index < i
      invariant Enters(result, after, node, prefix, Below(Leaves(node), done))
    {
      ChildCanBeVisited(node, prefix, Index(i));
      ghost var mid := after;
      after := FlattenInto(node.items[i], prefix + [Index(i)], BuildPath(path, Index(i)), after);
      LeavesOfChild(node, Index(i));
      EntersChild(result, mid, after, node, prefix, Leaves(node), done, Index(i));
      done := done + {Index(i)};
    }
    AllChildrenDone(node, Leaves(node), done);
  }

  /** `flatten_dict` of a dictionary: its leaves under their printed paths, and nothing else. */
  method FlattenDict(data: Tree) returns (flat: map<string, Tree>)
    requires data.Dict? && WellFormed(data)
    ensures IsFlat(flat, data, [])
    ensures forall entries :: Lists(entries, flat) ==> Replay(entries) == Some(data)
  {
    flat := FlattenInto(data, [], "", map[]);
    forall p | IsLeafPath(data, p)
      ensures p in Leaves(data) && [] + p == p
    {
      NodesArePaths(data, p);
    }
    forall entries | Lists(entries, flat)
      ensures Replay(entries) == Some(data)
    {
      RoundTrip(data, flat, entries);
    }
  }
}
