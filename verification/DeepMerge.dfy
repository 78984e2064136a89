/** Deep merging of configuration dictionaries, with and without regard to case (libs/utils/dict.py). */
module DeepMerge {
  import opened PathSyntax
  import opened ConfigTree

  type Fields = map<string, Tree>

  // ----- The plain merge

  /** Two dictionaries are merged key by key; anything else is overridden. */
  function Merged(base: Tree, update: Tree): Tree
    decreases update
  {
    match (base, update)
    case (Dict(b), Dict(u)) =>
      Dict(map k | k in b.Keys + u.Keys :: if k !in u then b[k] else if k in b then Merged(b[k], u[k]) else u[k])
    case _ => update
  }

  function MergedFields(base: Fields, updates: Fields): Fields {
    Merged(Dict(base), Dict(updates)).fields
  }

  /** One more update. */
  lemma MergedAdds(base: Fields, updates: Fields, k: string, value: Tree)
    requires k !in updates
    ensures MergedFields(base, updates[k := value])
         == MergedFields(base, updates)[k := if k in base then Merged(base[k], value) else value]
  {
  }

  method DeepMerge(base: Tree, updates: Tree) returns (result: Tree)
    requires base.Dict? && updates.Dict?
    ensures result == Merged(base, updates)
    decreases updates
  {
    var fields := base.fields;
    var todo := updates.fields.Keys;
    ghost var done: Fields := map[];
    while todo != {}
      invariant todo <= updates.fields.Keys && done == updates.fields - todo
      invariant fields == MergedFields(base.fields, done)
      decreases todo
    {
      var key :| key in todo;
      var value := updates.fields[key];
      MergedAdds(base.fields, done, key, value);
      if key in fields && fields[key].Dict? && value.Dict? {
        var merged := DeepMerge(fields[key], value);
        fields := fields[key := merged];
      } else {
        fields := fields[key := value];
      }
      done, todo := done[key := value], todo - {key};
    }
    assert done == updates.fields;
    result := Dict(fields);
  }

  /** A path through dictionaries only. */
  predicate KeysOnly(p: Path) {
    forall i :: 0 <= i < |p| ==> p[i].Key?
  }

  /** The update has nothing to say at `p`: some dictionary on the way lacks the key. */
  predicate Untouched(update: Tree, p: Path) {
    p != [] && p[0].Key? && update.Dict? &&
    (p[0].key !in update.fields || Untouched(update.fields[p[0].key], p[1..]))
  }

  /** Whatever the update has that is not a dictionary is in the merge, at its path. */
  lemma {:induction false} UpdatesWin(base: Tree, update: Tree, p: Path)
    requires KeysOnly(p) && HasPath(update, p) && !At(update, p).Dict?
    ensures HasPath(Merged(base, update), p) && At(Merged(base, update), p) == At(update, p)
    decreases p
  {
    if p != [] && base.Dict? && p[0].key in base.fields {
      UpdatesWin(base.fields[p[0].key], update.fields[p[0].key], p[1..]);
    }
  }

  /** What the update does not touch stays as the base has it. */
  lemma {:induction false} BaseStays(base: Tree, update: Tree, p: Path)
    requires KeysOnly(p) && HasPath(base, p) && Untouched(update, p)
    ensures HasPath(Merged(base, update), p) && At(Merged(base, update), p) == At(base, p)
    decreases p
  {
    if p[0].key in update.fields {
      BaseStays(base.fields[p[0].key], update.fields[p[0].key], p[1..]);
    }
  }

  /** The merge has no path that neither of the two has. */
  lemma {:induction false} NothingElseMerged(base: Tree, update: Tree, p: Path)
    requires KeysOnly(p) && HasPath(Merged(base, update), p)
    ensures HasPath(base, p) || HasPath(update, p)
    decreases p
  {
    if p != [] && base.Dict? && update.Dict? && p[0].key in base.fields && p[0].key in update.fields {
      NothingElseMerged(base.fields[p[0].key], update.fields[p[0].key], p[1..]);
    }
  }

  lemma {:induction false} MergeWithItself(t: Tree)
    ensures Merged(t, t) == t
    decreases t
  {
    if t.Dict? {
      forall k | k in t.fields
        ensures Merged(t.fields[k], t.fields[k]) == t.fields[k]
      {
        MergeWithItself(t.fields[k]);
      }
    }
  }

  /** Merging the same updates again changes nothing. */
  lemma {:induction false} MergeAgain(base: Tree, update: Tree)
    ensures Merged(Merged(base, update), update) == Merged(base, update)
    decreases update
  {
    if base.Dict? && update.Dict? {
      forall k | k in update.fields
        ensures Merged(Merged(base, update).fields[k], update.fields[k]) == Merged(base, update).fields[k]
      {
        if k in base.fields {
          MergeAgain(base.fields[k], update.fields[k]);
        } else {
          MergeWithItself(update.fields[k]);
        }
      }
    } else {
      MergeWithItself(update);
    }
  }

  // ----- Lower-casing keys

  /** No two keys of a dictionary differ only in case; `lower` is `str.lower`. */
  predicate NoCollision(lower: string -> string, t: Tree) {
    match t
    case Leaf(_) => true
    case List(items) => forall i :: 0 <= i < |items| ==> NoCollision(lower, items[i])
    case Dict(fields) => Distinct(lower, fields) && forall k :: k in fields ==> NoCollision(lower, fields[k])
  }

  predicate Distinct(lower: string -> string, fields: Fields) {
    forall j, k :: j in fields && k in fields && j != k ==> lower(j) != lower(k)
  }

  ghost function Spelling(lower: string -> string, fields: Fields, l: string): (k: string)
    requires exists k :: k in fields && lower(k) == l
    ensures k in fields && lower(k) == l
  {
    var k :| k in fields && lower(k) == l;
    k
  }

  /** All keys in lower case, at every depth. */
  ghost function Lowered(lower: string -> string, t: Tree): Tree
    requires NoCollision(lower, t)
    decreases t
  {
    match t
    case Leaf(_) => t
    case List(items) => List(seq(|items|, i requires 0 <= i < |items| => Lowered(lower, items[i])))
    case Dict(fields) =>
      var keys := set k | k in fields :: lower(k);
      Dict(map l | l in keys :: Lowered(lower, fields[Spelling(lower, fields, l)]))
  }

  ghost function LoweredFields(lower: string -> string, fields: Fields): Fields
    requires NoCollision(lower, Dict(fields))
  {
    Lowered(lower, Dict(fields)).fields
  }

  lemma LoweredHas(lower: string -> string, fields: Fields, k: string)
    requires NoCollision(lower, Dict(fields)) && k in fields
    ensures lower(k) in LoweredFields(lower, fields)
    ensures LoweredFields(lower, fields)[lower(k)] == Lowered(lower, fields[k])
  {
  }

  lemma LoweredOnly(lower: string -> string, fields: Fields, l: string) returns (k: string)
    requires NoCollision(lower, Dict(fields)) && l in LoweredFields(lower, fields)
    ensures k in fields && lower(k) == l
  {
    k :| k in fields && lower(k) == l;
  }

  lemma PutKeepsNoCollision(lower: string -> string, fields: Fields, k: string, value: Tree)
    requires NoCollision(lower, Dict(fields)) && NoCollision(lower, value)
    requires k in fields || lower(k) !in LoweredFields(lower, fields)
    ensures NoCollision(lower, Dict(fields[k := value]))
  {
    forall j | j in fields && j != k
      ensures lower(j) != lower(k)
    {
      LoweredHas(lower, fields, j);
    }
  }

  lemma LoweredKept(lower: string -> string, fields: Fields, k: string, value: Tree, l: string)
    requires NoCollision(lower, Dict(fields)) && NoCollision(lower, Dict(fields[k := value])) && l != lower(k)
    ensures l in LoweredFields(lower, fields) <==> l in LoweredFields(lower, fields[k := value])
    ensures l in LoweredFields(lower, fields) ==>
      LoweredFields(lower, fields)[l] == LoweredFields(lower, fields[k := value])[l]
  {
    if l in LoweredFields(lower, fields) {
      var j := LoweredOnly(lower, fields, l);
      LoweredHas(lower, fields, j);
      LoweredHas(lower, fields[k := value], j);
    } else if l in LoweredFields(lower, fields[k := value]) {
      var j := LoweredOnly(lower, fields[k := value], l);
      LoweredHas(lower, fields, j);
    }
  }

  /** Replacing a field, or adding one that collides with none. */
  lemma LoweredPut(lower: string -> string, fields: Fields, k: string, value: Tree)
    requires NoCollision(lower, Dict(fields)) && NoCollision(lower, value)
    requires k in fields || lower(k) !in LoweredFields(lower, fields)
    ensures NoCollision(lower, Dict(fields[k := value]))
    ensures LoweredFields(lower, fields[k := value]) == LoweredFields(lower, fields)[lower(k) := Lowered(lower, value)]
  {
    PutKeepsNoCollision(lower, fields, k, value);
    LoweredHas(lower, fields[k := value], k);
    forall l | l != lower(k)
      ensures l in LoweredFields(lower, fields) <==> l in LoweredFields(lower, fields[k := value])
      ensures l in LoweredFields(lower, fields) ==>
        LoweredFields(lower, fields)[l] == LoweredFields(lower, fields[k := value])[l]
    {
      LoweredKept(lower, fields, k, value, l);
    }
  }

  // ----- The merge that ignores case

  /** The dictionary from lower-cased keys to the keys as they are spelled. */
  ghost predicate IsKeyMap(lower: string -> string, keyMap: map<string, string>, fields: Fields) {
    && (forall k :: k in fields ==> lower(k) in keyMap)
    && (forall l :: l in keyMap ==> keyMap[l] in fields && lower(keyMap[l]) == l)
  }

  /** `{str(k).lower(): k for k in result}`; among colliding keys any may win. */
  method BaseKeyMap(lower: string -> string, fields: Fields) returns (keyMap: map<string, string>)
    ensures IsKeyMap(lower, keyMap, fields)
  {
    keyMap := map[];
    var todo := fields.Keys;
    while todo != {}
      invariant todo <= fields.Keys
      invariant forall k :: k in fields && k !in todo ==> lower(k) in keyMap
      invariant forall l :: l in keyMap ==> keyMap[l] in fields && lower(keyMap[l]) == l
      decreases todo
    {
      var k :| k in todo;
      keyMap, todo := keyMap[lower(k) := k], todo - {k};
    }
  }

  /** The merge so far, seen through lower-casing. */
  ghost predicate Refines(lower: string -> string, fields: Fields, base: Fields, done: Fields)
    requires NoCollision(lower, Dict(base)) && NoCollision(lower, Dict(done))
  {
    && NoCollision(lower, Dict(fields))
    && LoweredFields(lower, fields) == MergedFields(LoweredFields(lower, base), LoweredFields(lower, done))
  }

  /** One more update, to `slot`: the base's spelling of its key, or its own if the base has none. */
  lemma RefinesStep(lower: string -> string, fields: Fields, base: Fields, done: Fields, key: string, value: Tree,
                    slot: string, merged: Tree)
    requires NoCollision(lower, Dict(base)) && NoCollision(lower, Dict(done)) && Refines(lower, fields, base, done)
    requires NoCollision(lower, value) && NoCollision(lower, merged) && lower(key) !in LoweredFields(lower, done)
    requires lower(slot) == lower(key) && (slot in fields || lower(slot) !in LoweredFields(lower, fields))
    requires Lowered(lower, merged) ==
      if slot in fields then Merged(Lowered(lower, fields[slot]), Lowered(lower, value)) else Lowered(lower, value)
    ensures NoCollision(lower, Dict(done[key := value]))
    ensures Refines(lower, fields[slot := merged], base, done[key := value])
  {
    LoweredPut(lower, done, key, value);
    LoweredPut(lower, fields, slot, merged);
    MergedAdds(LoweredFields(lower, base), LoweredFields(lower, done), lower(key), Lowered(lower, value));
    if slot in fields {
      LoweredHas(lower, fields, slot);
    }
  }

  lemma DictsMergeThroughLower(lower: string -> string, was: Tree, value: Tree)
    requires NoCollision(lower, was) && NoCollision(lower, value) && !(was.Dict? && value.Dict?)
    ensures Merged(Lowered(lower, was), Lowered(lower, value)) == Lowered(lower, value)
  {
  }

  lemma DoneIsFresh(lower: string -> string, updates: Fields, done: Fields, key: string)
    requires NoCollision(lower, Dict(updates)) && key in updates && key !in done
    requires forall k :: k in done ==> k in updates && done[k] == updates[k]
    ensures NoCollision(lower, Dict(done)) && lower(key) !in LoweredFields(lower, done)
  {
    if lower(key) in LoweredFields(lower, done) {
      var k := LoweredOnly(lower, done, lower(key));
    }
  }

  /** The keys of the base keep their spelling, and the only new keys are those that the base has in no spelling. */
  ghost predicate KeepsSpelling(lower: string -> string, base: Fields, updates: Fields, result: Fields) {
    && base.Keys <= result.Keys <= base.Keys + updates.Keys
    && forall k, b :: k in result && k !in base && b in base ==> lower(k) != lower(b)
  }

  lemma SpellingKept(lower: string -> string, base: Fields, updates: Fields, fields: Fields,
                     keyMap: map<string, string>, key: string, result: Fields)
    requires KeepsSpelling(lower, base, updates, fields) && key in updates && IsKeyMap(lower, keyMap, fields)
    requires result.Keys == fields.Keys + if lower(key) in keyMap then {} else {key}
    ensures KeepsSpelling(lower, base, updates, result)
  {
    forall b | b in base && lower(key) !in keyMap
      ensures lower(key) != lower(b)
    {
      assert b in fields;
    }
  }

  /** The body of the loop over the updates; without colliding keys it makes one more update to the merge so far. */
  method UpdateKey(lower: string -> string, fields: Fields, keyMap: map<string, string>, key: string, value: Tree,
                   ghost clean: bool, ghost base: Fields, ghost done: Fields)
    returns (result: Fields, resultMap: map<string, string>)
    requires IsKeyMap(lower, keyMap, fields)
    requires clean ==>
      NoCollision(lower, Dict(base)) && NoCollision(lower, Dict(done)) && Refines(lower, fields, base, done)
    requires clean ==> NoCollision(lower, value) && lower(key) !in LoweredFields(lower, done)
    ensures IsKeyMap(lower, resultMap, result)
    ensures result.Keys == fields.Keys + if lower(key) in keyMap then {} else {key}
    ensures forall k :: k in fields && lower(k) != lower(key) ==> result[k] == fields[k]
    ensures clean ==> NoCollision(lower, Dict(done[key := value])) && Refines(lower, result, base, done[key := value])
    decreases value, 1
  {
    var lookupKey := lower(key);
    resultMap := keyMap;
    if lookupKey in keyMap {
      var actualBaseKey := keyMap[lookupKey];
      var baseVal := fields[actualBaseKey];
      var merged := value;
      if baseVal.Dict? && value.Dict? {
        merged := DeepMergeIgnoringCase(lower, baseVal, value);
      } else if clean {
        DictsMergeThroughLower(lower, baseVal, value);
      }
      if clean {
        RefinesStep(lower, fields, base, done, key, value, actualBaseKey, merged);
      }
      result := fields[actualBaseKey := merged];
    } else {
      if clean {
        KeyMapIsComplete(lower, keyMap, fields, lookupKey);
        RefinesStep(lower, fields, base, done, key, value, key, value);
      }
      result := fields[key := value];
      resultMap := keyMap[lookupKey := key];
    }
  }

  /** The case-insensitive branch: lower-casing its result is the plain merge of the lower-cased dictionaries. */
  method DeepMergeIgnoringCase(lower: string -> string, base: Tree, updates: Tree) returns (result: Tree)
    requires base.Dict? && updates.Dict?
    ensures result.Dict? && KeepsSpelling(lower, base.fields, updates.fields, result.fields)
    ensures NoCollision(lower, base) && NoCollision(lower, updates) ==>
      NoCollision(lower, result) && Lowered(lower, result) == Merged(Lowered(lower, base), Lowered(lower, updates))
    decreases updates, 0
  {
    var fields := base.fields;
    var baseKeyMap := BaseKeyMap(lower, fields);
    var todo := updates.fields.Keys;
    ghost var clean := NoCollision(lower, base) && NoCollision(lower, updates);
    ghost var done: Fields := map[];
    if clean {
      RefinesStart(lower, base.fields);
    }
    while todo != {}
      invariant todo <= updates.fields.Keys && done == updates.fields - todo
      invariant IsKeyMap(lower, baseKeyMap, fields)
      invariant KeepsSpelling(lower, base.fields, updates.fields, fields)
      invariant clean ==> NoCollision(lower, Dict(done)) && Refines(lower, fields, base.fields, done)
      decreases todo
    {
      var key :| key in todo;
      if clean {
        DoneIsFresh(lower, updates.fields, done, key);
      }
      ghost var before, keyMap := fields, baseKeyMap;
      fields, baseKeyMap := UpdateKey(lower, fields, baseKeyMap, key, updates.fields[key], clean, base.fields, done);
      SpellingKept(lower, base.fields, updates.fields, before, keyMap, key, fields);
      DoneGrows(updates.fields, todo, key);
      done, todo := done[key := updates.fields[key]], todo - {key};
    }
    assert done == updates.fields;
    result := Dict(fields);
  }

  lemma DoneGrows(updates: Fields, todo: set<string>, key: string)
    requires key in todo && key in updates
    ensures (updates - todo)[key := updates[key]] == updates - (todo - {key})
  {
  }

  lemma RefinesStart(lower: string -> string, base: Fields)
    requires NoCollision(lower, Dict(base))
    ensures NoCollision(lower, Dict(map[])) && Refines(lower, base, base, map[])
  {
    assert LoweredFields(lower, map[]) == map[];
  }

  lemma KeyMapIsComplete(lower: string -> string, keyMap: map<string, string>, fields: Fields, l: string)
    requires NoCollision(lower, Dict(fields)) && IsKeyMap(lower, keyMap, fields) && l !in keyMap
    ensures l !in LoweredFields(lower, fields)
  {
    if l in LoweredFields(lower, fields) {
      var k := LoweredOnly(lower, fields, l);
    }
  }
}
