/** Dot-and-bracket paths such as `items[0].name`: printing and parsing (libs/utils/dict.py). */
module PathSyntax {
  import opened Decimals
  import opened Texts

  datatype Seg = Key(key: string) | Index(index: nat)
  type Path = seq<Seg>

  predicate ValidKey(k: string) {
    k != "" && '.' !in k && '[' !in k && ']' !in k
  }

  predicate ValidSeg(s: Seg) {
    s.Key? ==> ValidKey(s.key)
  }

  /** A path of keys and indices that starts with a key, as every path into a dictionary does. */
  predicate ValidPath(p: Path) {
    p != [] && p[0].Key? && forall i :: 0 <= i < |p| ==> ValidSeg(p[i])
  }

  function BuildPath(parent: string, seg: Seg): string {
    match seg
    case Index(i) => parent + "[" + Dec(i) + "]"
    case Key(k) => if parent != "" then parent + "." + k else k
  }

  function Render(p: Path): string {
    if p == [] then "" else BuildPath(Render(p[..|p| - 1]), p[|p| - 1])
  }

  // ----- Python's string methods

  /** `s.replace(c, "")`. */
  function Remove(s: string, c: char): (r: string)
    ensures c !in r
  {
    if s == [] then [] else if s[0] == c then Remove(s[1..], c) else [s[0]] + Remove(s[1..], c)
  }

  function ParseIndices(parts: seq<string>): Option<Path> {
    if parts == [] then Some([])
    else
      match (ParseInt(parts[0]), ParseIndices(parts[1..]))
      case (Some(i), Some(rest)) => Some([Index(i)] + rest)
      case _ => None
  }

  /** The keys and indices of one dot-free segment. */
  function ParseSegment(segment: string): Option<Path> {
    if '[' in segment then
      var parts := Split(Remove(segment, ']'), '[');
      match ParseIndices(parts[1..])
      case Some(indices) => Some((if parts[0] != "" then [Key(parts[0])] else []) + indices)
      case None => None
    else Some([Key(segment)])
  }

  function ParseSegments(segments: seq<string>): Option<Path> {
    if segments == [] then Some([])
    else
      match (ParseSegments(segments[..|segments| - 1]), ParseSegment(segments[|segments| - 1]))
      case (Some(before), Some(last)) => Some(before + last)
      case _ => None
  }

  function Parse(path: string): Option<Path> {
    ParseSegments(Split(path, '.'))
  }

  /** `_parse_path`; None is the ValueError that `int` raises. */
  method ParsePath(path: string) returns (parsed: Option<Path>)
    ensures parsed == Parse(path)
  {
    var segments := Split(path, '.');
    var found: Path := [];
    for n := 0 to |segments|
      invariant ParseSegments(segments[..n]) == Some(found)
    {
      assert segments[..n + 1][..n] == segments[..n];
      var next := ParseSegment(segments[n]);
      if next == None {
        FailureStays(segments, n + 1);
        return None;
      }
      found := found + next.value;
    }
    assert segments[..|segments|] == segments;
    parsed := Some(found);
  }

  lemma {:induction false} FailureStays(segments: seq<string>, n: nat)
    requires n <= |segments| && ParseSegments(segments[..n]) == None
    ensures ParseSegments(segments) == None
    decreases |segments|
  {
    if n == |segments| {
      assert segments[..n] == segments;
    } else {
      var init := segments[..|segments| - 1];
      assert init[..n] == segments[..n];
      FailureStays(init, n);
    }
  }

  // ----- Parsing inverts printing

  lemma {:induction false} RemoveAppend(s: string, t: string, c: char)
    ensures Remove(s + t, c) == Remove(s, c) + Remove(t, c)
  {
    if s == [] {
      assert s + t == t;
    } else {
      assert (s + t)[1..] == s[1..] + t;
      RemoveAppend(s[1..], t, c);
    }
  }

  lemma {:induction false} RemovePlain(s: string, c: char)
    requires c !in s
    ensures Remove(s, c) == s
  {
    if s != [] {
      RemovePlain(s[1..], c);
    }
  }

  lemma OneIndex(part: string)
    requires ParseInt(part).Some?
    ensures ParseIndices([part]) == Some([Index(ParseInt(part).value)])
  {
    assert [part][1..] == [];
    assert ParseIndices([part][1..]) == Some([]);
    var only: Path := [Index(ParseInt(part).value)];
    assert only + [] == only;
  }

  lemma {:induction false} ParseIndicesAdds(parts: seq<string>, part: string)
    requires ParseIndices(parts).Some? && ParseInt(part).Some?
    ensures ParseIndices(parts + [part]) == Some(ParseIndices(parts).value + [Index(ParseInt(part).value)])
  {
    if parts == [] {
      assert parts + [part] == [part];
      OneIndex(part);
      var only: Path := [Index(ParseInt(part).value)];
      assert [] + only == only;
    } else {
      assert (parts + [part])[1..] == parts[1..] + [part];
      ParseIndicesAdds(parts[1..], part);
      var first, last := [Index(ParseInt(parts[0]).value)], [Index(ParseInt(part).value)];
      var rest := ParseIndices(parts[1..]).value;
      assert first + (rest + last) == first + rest + last;
    }
  }

  function Bracket(i: nat): string {
    "[" + Dec(i) + "]"
  }

  lemma BracketSplits(inner: string, segment: string, i: nat)
    requires inner == Remove(segment, ']')
    ensures Split(Remove(segment + Bracket(i), ']'), '[') == Split(inner, '[') + [Dec(i)]
  {
    var digits := Dec(i);
    RemoveAppend(segment, Bracket(i), ']');
    RemoveAppend("[" + digits, "]", ']');
    RemovePlain("[" + digits, ']');
    assert Remove("]", ']') == "";
    assert Remove(segment + Bracket(i), ']') == inner + ['['] + digits;
    SplitAdds(inner, digits, '[');
  }

  /** The key in front of a bracket: dropped if it is empty. */
  function Named(k: string): Path {
    if k != "" then [Key(k)] else []
  }

  /** Printing an index behind indices and parsing adds that index. */
  lemma IndexBehindIndex(segment: string, i: nat)
    requires '[' in segment && ParseSegment(segment).Some?
    ensures '[' in segment + Bracket(i)
    ensures ParseSegment(segment + Bracket(i)) == Some(ParseSegment(segment).value + [Index(i)])
  {
    var digits, parts := Dec(i), Split(Remove(segment, ']'), '[');
    BracketSplits(Remove(segment, ']'), segment, i);
    NumberOfDec(i);
    assert (parts + [digits])[1..] == parts[1..] + [digits] && (parts + [digits])[0] == parts[0];
    ParseIndicesAdds(parts[1..], digits);
    var indices := ParseIndices(parts[1..]).value;
    assert Named(parts[0]) + (indices + [Index(i)]) == Named(parts[0]) + indices + [Index(i)];
  }

  lemma {:induction false} RemoveKeeps(s: string, c: char, d: char)
    requires d !in s
    ensures d !in Remove(s, c)
  {
    if s != [] {
      RemoveKeeps(s[1..], c, d);
    }
  }

  /** An index behind a key takes the closing brackets out of the key. */
  lemma IndexBehindKey(segment: string, i: nat)
    requires '[' !in segment
    ensures '[' in segment + Bracket(i)
    ensures ParseSegment(segment + Bracket(i)) == Some(Named(Remove(segment, ']')) + [Index(i)])
  {
    var digits, name := Dec(i), Remove(segment, ']');
    assert (segment + Bracket(i))[|segment|] == '[';
    BracketSplits(name, segment, i);
    NumberOfDec(i);
    RemoveKeeps(segment, ']', '[');
    SplitPlain(name, '[');
    assert ([name] + [digits])[1..] == [digits];
    OneIndex(digits);
  }

  // ----- What a printed path parses to

  /** An index behind a path that ends in `last` and is read as `q`. */
  function Bracketed(q: Path, last: Seg, i: nat): Path
    requires q != []
  {
    match last
    case Index(_) => q + [Index(i)]
    case Key(k) => q[..|q| - 1] + Named(Remove(k, ']')) + [Index(i)]
  }

  /** What parsing makes of the printed path, if its keys have no dots and no opening brackets. */
  function Reading(p: Path): (r: Path)
    requires p != []
    ensures r != [] && |r| <= |p| && r[|r| - 1] == p[|p| - 1]
    decreases |p|
  {
    var init, seg := p[..|p| - 1], p[|p| - 1];
    if init == [] || (seg.Key? && Render(init) == "") then [seg]
    else if seg.Key? then Reading(init) + [seg]
    else Bracketed(Reading(init), init[|init| - 1], seg.index)
  }

  predicate PlainKey(k: string) {
    '.' !in k && '[' !in k
  }

  predicate PlainKeys(p: Path) {
    forall i :: 0 <= i < |p| ==> p[i].Key? ==> PlainKey(p[i].key)
  }

  /** The last dot-free segment is the last key, or ends in brackets. */
  predicate EndsIn(path: string, seg: Seg) {
    var segments := Split(path, '.');
    if seg.Key? then segments[|segments| - 1] == seg.key else '[' in segments[|segments| - 1]
  }

  lemma ParseAddsKey(path: string, p: Path, k: string)
    requires Parse(path) == Some(p) && PlainKey(k)
    ensures Parse(path + "." + k) == Some(p + [Key(k)]) && EndsIn(path + "." + k, Key(k))
  {
    var segments := Split(path, '.');
    SplitAdds(path, k, '.');
    assert path + "." + k == path + ['.'] + k;
    assert (segments + [k])[..|segments|] == segments && (segments + [k])[|segments|] == k;
  }

  lemma ParseOfKey(k: string)
    requires PlainKey(k)
    ensures Parse(k) == Some([Key(k)]) && EndsIn(k, Key(k))
  {
    SplitPlain(k, '.');
    assert ParseSegments([k][..0]) == Some([]);
    var only: Path := [Key(k)];
    assert [] + only == only;
  }

  lemma ParseSegmentsLast(before: seq<string>, last: string)
    requires ParseSegments(before + [last]).Some?
    ensures ParseSegments(before).Some? && ParseSegment(last).Some?
  {
    assert (before + [last])[..|before|] == before;
  }

  lemma ParseSegmentsJoin(before: seq<string>, last: string)
    requires ParseSegments(before).Some? && ParseSegment(last).Some?
    ensures ParseSegments(before + [last]) == Some(ParseSegments(before).value + ParseSegment(last).value)
  {
    assert (before + [last])[..|before|] == before;
  }

  lemma SegmentTakesIndex(segment: string, i: nat)
    requires ParseSegment(segment).Some?
    ensures ParseSegment(segment + Bracket(i)).Some? && '[' in segment + Bracket(i)
  {
    if '[' in segment {
      IndexBehindIndex(segment, i);
    } else {
      IndexBehindKey(segment, i);
    }
  }

  lemma LastSegment(path: string) returns (before: seq<string>, last: string)
    requires Parse(path).Some?
    ensures Split(path, '.') == before + [last] && ParseSegments(before).Some? && ParseSegment(last).Some?
    ensures Parse(path) == Some(ParseSegments(before).value + ParseSegment(last).value)
  {
    var segments := Split(path, '.');
    before, last := segments[..|segments| - 1], segments[|segments| - 1];
    ParseSegmentsLast(before, last);
    ParseSegmentsJoin(before, last);
  }

  /** An index goes into the last segment; the segments before it stay. */
  lemma BracketExtends(path: string, before: seq<string>, last: string, i: nat)
    requires Split(path, '.') == before + [last]
    ensures Split(path + Bracket(i), '.') == before + [last + Bracket(i)]
  {
    assert '.' !in Bracket(i);
    SplitExtends(path, Bracket(i), '.');
    assert (before + [last])[..|before|] == before;
  }

  lemma ParseAddsBracket(path: string, before: seq<string>, last: string, i: nat)
    requires Split(path, '.') == before + [last] && ParseSegments(before).Some? && ParseSegment(last).Some?
    ensures ParseSegment(last + Bracket(i)).Some? && EndsIn(path + Bracket(i), Index(i))
    ensures Parse(path + Bracket(i)) == Some(ParseSegments(before).value + ParseSegment(last + Bracket(i)).value)
  {
    BracketExtends(path, before, last, i);
    SegmentTakesIndex(last, i);
    ParseSegmentsJoin(before, last + Bracket(i));
  }

  lemma BracketBehindIndex(path: string, q: Path, i: nat)
    requires Parse(path) == Some(q) && EndsIn(path, Index(0))
    ensures Parse(path + Bracket(i)) == Some(q + [Index(i)]) && EndsIn(path + Bracket(i), Index(i))
  {
    var before, last := LastSegment(path);
    ParseAddsBracket(path, before, last, i);
    IndexBehindIndex(last, i);
    var p := ParseSegments(before).value;
    assert p + (ParseSegment(last).value + [Index(i)]) == q + [Index(i)];
  }

  lemma BracketBehindKey(path: string, q: Path, k: string, i: nat)
    requires Parse(path) == Some(q) && EndsIn(path, Key(k)) && PlainKey(k)
    ensures q != [] && Parse(path + Bracket(i)) == Some(q[..|q| - 1] + Named(Remove(k, ']')) + [Index(i)])
    ensures EndsIn(path + Bracket(i), Index(i))
  {
    var before, last := LastSegment(path);
    ParseAddsBracket(path, before, last, i);
    IndexBehindKey(k, i);
    var p := ParseSegments(before).value;
    assert q == p + [Key(k)] && q[..|q| - 1] == p;
    assert p + (Named(Remove(k, ']')) + [Index(i)]) == p + Named(Remove(k, ']')) + [Index(i)];
  }

  lemma BracketBehind(path: string, q: Path, last: Seg, i: nat)
    requires q != [] && Parse(path) == Some(q) && EndsIn(path, last) && (last.Key? ==> PlainKey(last.key))
    ensures Parse(path + Bracket(i)) == Some(Bracketed(q, last, i)) && EndsIn(path + Bracket(i), Index(i))
  {
    match last
    case Index(_) => BracketBehindIndex(path, q, i);
    case Key(k) => BracketBehindKey(path, q, k, i);
  }

  lemma KeyIsRead(init: Path, k: string)
    requires init != [] && Parse(Render(init)) == Some(Reading(init)) && PlainKey(k)
    ensures var p := init + [Key(k)]; Parse(Render(p)) == Some(Reading(p)) && EndsIn(Render(p), Key(k))
  {
    assert (init + [Key(k)])[..|init|] == init;
    if Render(init) == "" {
      ParseOfKey(k);
    } else {
      ParseAddsKey(Render(init), Reading(init), k);
    }
  }

  lemma RenderIndex(init: Path, i: nat)
    ensures Render(init + [Index(i)]) == Render(init) + Bracket(i)
  {
    assert (init + [Index(i)])[..|init|] == init;
    assert Render(init) + "[" + Dec(i) + "]" == Render(init) + Bracket(i);
  }

  lemma ReadingOfIndex(init: Path, i: nat)
    requires init != []
    ensures Reading(init + [Index(i)]) == Bracketed(Reading(init), init[|init| - 1], i)
  {
    assert (init + [Index(i)])[..|init|] == init;
  }

  lemma IndexIsRead(init: Path, i: nat)
    requires init != [] && Parse(Render(init)) == Some(Reading(init))
    requires PlainKeys(init) && EndsIn(Render(init), init[|init| - 1])
    ensures var p := init + [Index(i)]; Parse(Render(p)) == Some(Reading(p)) && EndsIn(Render(p), Index(i))
  {
    RenderIndex(init, i);
    ReadingOfIndex(init, i);
    BracketBehind(Render(init), Reading(init), init[|init| - 1], i);
  }

  lemma FirstIndex(i: nat)
    ensures Parse(Bracket(i)) == Some([Index(i)]) && EndsIn(Bracket(i), Index(i))
  {
    ParseOfKey("");
    var only: Path := [Key("")];
    BracketBehindKey("", only, "", i);
    assert "" + Bracket(i) == Bracket(i) && only[..0] + Named(Remove("", ']')) + [Index(i)] == [Index(i)];
  }

  lemma {:induction false} ParseIsReading(p: Path)
    requires p != [] && PlainKeys(p)
    ensures Parse(Render(p)) == Some(Reading(p)) && EndsIn(Render(p), p[|p| - 1])
    decreases |p|
  {
    var init, seg := p[..|p| - 1], p[|p| - 1];
    assert p == init + [seg];
    if init != [] {
      ParseIsReading(init);
      match seg
      case Key(k) => KeyIsRead(init, k);
      case Index(i) => IndexIsRead(init, i);
    } else if seg.Key? {
      ParseOfKey(seg.key);
    } else {
      FirstIndex(seg.index);
      RenderIndex([], seg.index);
      assert "" + Bracket(seg.index) == Bracket(seg.index);
    }
  }

  // ----- Which paths read back

  /**
   * A key in a path that reads back has no dot and no opening bracket; in front of an index it is not empty and has no
   * closing bracket; and the first key is not empty, unless it is all there is.
   */
  predicate ReadsBack(p: Path) {
    && p != [] && PlainKeys(p)
    && (p[0] == Key("") ==> |p| == 1)
    && forall i :: 0 <= i < |p| - 1 && p[i].Key? && p[i + 1].Index? ==> p[i].key != "" && ']' !in p[i].key
  }

  lemma ReadsBackStep(init: Path, seg: Seg)
    requires init != [] && PlainKeys(init + [seg])
    ensures ReadsBack(init + [seg]) <==>
      && ReadsBack(init) && init != [Key("")]
      && (seg.Index? && init[|init| - 1].Key? ==> init[|init| - 1].key != "" && ']' !in init[|init| - 1].key)
  {
    var p := init + [seg];
    assert forall i :: 0 <= i < |init| ==> init[i] == p[i];
    assert p[|p| - 2] == init[|init| - 1] && p[|p| - 1] == seg;
    if ReadsBack(init) && init != [Key("")] {
      assert init[0] == Key("") ==> init == [Key("")];
    }
  }

  lemma {:induction false} RemoveShortens(s: string, c: char)
    ensures Remove(s, c) == s <==> c !in s
    ensures |Remove(s, c)| <= |s|
  {
    if s != [] {
      RemoveShortens(s[1..], c);
    }
  }

  lemma OnlyEmptyKey()
    ensures Render([Key("")]) == ""
  {
    var only: Path := [Key("")];
    assert only[..0] == [];
  }

  lemma {:induction false} EmptyText(p: Path)
    requires p != [] && Render(p) == ""
    ensures p[0] == Key("")
    decreases |p|
  {
    var init, seg := p[..|p| - 1], p[|p| - 1];
    if init != [] {
      EmptyText(init);
    }
  }

  lemma AppendIsExact(q: Path, init: Path, seg: Seg)
    ensures q + [seg] == init + [seg] <==> q == init
  {
    assert q + [seg] == init + [seg] ==> (q + [seg])[..|q|] == (init + [seg])[..|init|];
  }

  lemma BracketIsExact(q: Path, init: Path, seg: Seg)
    requires q != [] && init != [] && |q| <= |init| && q[|q| - 1] == init[|init| - 1] && init[|init| - 1].Key?
    ensures var k := init[|init| - 1].key;
      q[..|q| - 1] + Named(Remove(k, ']')) + [seg] == init + [seg] <==> q == init && k != "" && ']' !in k
  {
    var k := init[|init| - 1].key;
    AppendIsExact(q[..|q| - 1] + Named(Remove(k, ']')), init, seg);
    RemoveShortens(k, ']');
    var name := Remove(k, ']');
    assert q == q[..|q| - 1] + [Key(k)] && init == init[..|init| - 1] + [Key(k)];
    if name != "" {
      assert (q[..|q| - 1] + [Key(name)])[|q| - 1] == Key(name);
    }
  }

  /** A key behind an empty text takes the place of what is before it. */
  lemma KeyIsExact(init: Path, k: string)
    requires init != [] && PlainKeys(init + [Key(k)]) && (Reading(init) == init <==> ReadsBack(init))
    ensures Reading(init + [Key(k)]) == init + [Key(k)] <==> ReadsBack(init + [Key(k)])
  {
    assert (init + [Key(k)])[..|init|] == init;
    ReadsBackStep(init, Key(k));
    OnlyEmptyKey();
    if Render(init) == "" {
      EmptyText(init);
      assert |Reading(init + [Key(k)])| == 1;
    } else {
      AppendIsExact(Reading(init), init, Key(k));
    }
  }

  lemma IndexIsExact(init: Path, i: nat)
    requires init != [] && PlainKeys(init + [Index(i)]) && (Reading(init) == init <==> ReadsBack(init))
    ensures Reading(init + [Index(i)]) == init + [Index(i)] <==> ReadsBack(init + [Index(i)])
  {
    ReadingOfIndex(init, i);
    ReadsBackStep(init, Index(i));
    if init[|init| - 1].Index? {
      AppendIsExact(Reading(init), init, Index(i));
    } else {
      BracketIsExact(Reading(init), init, Index(i));
    }
  }

  lemma {:induction false} ReadingIsExact(p: Path)
    requires p != [] && PlainKeys(p)
    ensures Reading(p) == p <==> ReadsBack(p)
    decreases |p|
  {
    var init, seg := p[..|p| - 1], p[|p| - 1];
    assert p == init + [seg];
    if init != [] {
      ReadingIsExact(init);
      match seg
      case Key(k) => KeyIsExact(init, k);
      case Index(i) => IndexIsExact(init, i);
    }
  }

  // ----- Keys that are never parsed

  lemma {:induction false} SplitIsPlain(s: string, c: char, d: char)
    ensures forall i :: 0 <= i < |Split(s, c)| ==> c !in Split(s, c)[i] && (d !in s ==> d !in Split(s, c)[i])
  {
    if s != [] {
      SplitIsPlain(s[1..], c, d);
    }
  }

  lemma {:induction false} IndicesAreIndices(parts: seq<string>)
    requires ParseIndices(parts).Some?
    ensures PlainKeys(ParseIndices(parts).value)
  {
    if parts != [] {
      IndicesAreIndices(parts[1..]);
    }
  }

  lemma SegmentIsPlain(segment: string)
    requires '.' !in segment && ParseSegment(segment).Some?
    ensures PlainKeys(ParseSegment(segment).value)
  {
    if '[' in segment {
      RemoveKeeps(segment, ']', '.');
      SplitIsPlain(Remove(segment, ']'), '[', '.');
      IndicesAreIndices(Split(Remove(segment, ']'), '[')[1..]);
    }
  }

  lemma {:induction false} SegmentsArePlain(segments: seq<string>)
    requires (forall i :: 0 <= i < |segments| ==> '.' !in segments[i]) && ParseSegments(segments).Some?
    ensures PlainKeys(ParseSegments(segments).value)
    decreases |segments|
  {
    if segments != [] {
      SegmentsArePlain(segments[..|segments| - 1]);
      SegmentIsPlain(segments[|segments| - 1]);
    }
  }

  /** Exactly these paths read back: for every path, whatever its keys, printing and parsing gives it back. */
  lemma ParseOfRender(p: Path)
    ensures Parse(Render(p)) == Some(p) <==> ReadsBack(p)
  {
    if p == [] {
      ParseOfKey("");
    } else if PlainKeys(p) {
      ParseIsReading(p);
      ReadingIsExact(p);
    } else if Parse(Render(p)).Some? {
      SplitIsPlain(Render(p), '.', '.');
      SegmentsArePlain(Split(Render(p), '.'));
    }
  }

  /** Paths that read back print differently. */
  lemma RenderIsInjective(p: Path, q: Path)
    requires ReadsBack(p) && ReadsBack(q) && Render(p) == Render(q)
    ensures p == q
  {
    ParseOfRender(p);
    ParseOfRender(q);
  }
}
