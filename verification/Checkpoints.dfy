/** Watermarks and the date windows between them (apps/ingestion/src/extras/checkpoints/checkpoint.py). */
module Checkpoints {
  import opened Texts
  import opened Calendar

  // ----- The high-water mark

  function Advanced(end: Option<string>, newVal: Option<string>): Option<string> {
    match (end, newVal)
    case (_, None) => end
    case (None, Some(_)) => newVal
    case (Some(e), Some(n)) => if Lt(e, n) then newVal else end
  }

  class Checkpoint {
    var startValue: Option<string>
    var endValue: Option<string>

    constructor (start: Option<string>)
      ensures startValue == start && endValue == None
    {
      startValue, endValue := start, None;
    }

    method UpdateEndValue(newVal: Option<string>)
      modifies this`endValue
      ensures endValue == Advanced(old(endValue), newVal)
    {
      if newVal == None {
        return;
      }
      if endValue == None || Lt(endValue.value, newVal.value) {
        endValue := newVal;
      }
    }
  }

  /** Updating with one value after another. */
  function Folded(end: Option<string>, values: seq<Option<string>>): Option<string> {
    if values == [] then end else Advanced(Folded(end, values[..|values| - 1]), values[|values| - 1])
  }

  predicate AtMost(v: Option<string>, bound: Option<string>) {
    v.Some? ==> bound.Some? && !Lt(bound.value, v.value)
  }

  lemma AtMostTransitive(u: Option<string>, v: Option<string>, w: Option<string>)
    requires AtMost(u, v) && AtMost(v, w)
    ensures AtMost(u, w)
  {
    if u.Some? && Lt(w.value, u.value) {
      LtTotal(v.value, u.value);
      if Lt(u.value, v.value) {
        LtTransitive(w.value, u.value, v.value);
      }
    }
  }

  lemma AdvancedIsGreater(end: Option<string>, v: Option<string>)
    ensures AtMost(end, Advanced(end, v)) && AtMost(v, Advanced(end, v)) && Advanced(end, v) in {end, v}
  {
    if end.Some? && v.Some? {
      LtIrreflexive(end.value);
      LtIrreflexive(v.value);
      if Lt(end.value, v.value) && Lt(v.value, end.value) {
        LtTransitive(end.value, v.value, end.value);
      }
    } else if end.Some? {
      LtIrreflexive(end.value);
    } else if v.Some? {
      LtIrreflexive(v.value);
    }
  }

  /** The fold ends at the greatest of all values. */
  lemma {:induction false} FoldedIsGreatest(end: Option<string>, values: seq<Option<string>>)
    ensures Folded(end, values) == end || Folded(end, values) in values
    ensures AtMost(end, Folded(end, values))
    ensures forall i :: 0 <= i < |values| ==> AtMost(values[i], Folded(end, values))
  {
    if values == [] {
      AdvancedIsGreater(end, None);
    } else {
      var init, last := values[..|values| - 1], values[|values| - 1];
      FoldedIsGreatest(end, init);
      AdvancedIsGreater(Folded(end, init), last);
      AtMostTransitive(end, Folded(end, init), Folded(end, values));
      forall i | 0 <= i < |init|
        ensures AtMost(values[i], Folded(end, values))
      {
        assert values[i] == init[i];
        AtMostTransitive(values[i], Folded(end, init), Folded(end, values));
      }
    }
  }

  function Formatted(dates: seq<Date>): seq<Option<string>> {
    seq(|dates|, i requires 0 <= i < |dates| => Some(Format(dates[i])))
  }

  /** A new checkpoint that is updated with dates ends at the latest of them in the calendar. */
  lemma {:induction false} LatestDate(dates: seq<Date>) returns (k: nat)
    requires dates != [] && forall i :: 0 <= i < |dates| ==> Valid(dates[i])
    ensures k < |dates| && Folded(None, Formatted(dates)) == Some(Format(dates[k]))
    ensures forall i :: 0 <= i < |dates| ==> !Before(dates[k], dates[i])
  {
    var values := Formatted(dates);
    FoldedIsGreatest(None, values);
    assert AtMost(values[0], Folded(None, values));
    k :| 0 <= k < |values| && values[k] == Folded(None, values);
    forall i | 0 <= i < |dates|
      ensures !Before(dates[k], dates[i])
    {
      assert AtMost(values[i], values[k]);
      TextOrder(dates[k], dates[i]);
    }
  }

  // ----- Date windows

  predicate IsSet(value: Option<string>) {
    value.Some? && value.value != ""
  }

  /** `_resolve_target_dates`; None where parsing a date raises. */
  function ResolveTargetDates(start: Option<string>, end: Option<string>,
                              partitionDate: Option<string>): Option<seq<string>> {
    if IsSet(partitionDate) then Some([partitionDate.value])
    else if !IsSet(end) then Some([])
    else if ParseDate(end.value) == None then None
    else if !IsSet(start) then Some([Format(ParseDate(end.value).value)])
    else if ParseDate(start.value) == None then None
    else
      var first, last := ParseDate(start.value).value, ParseDate(end.value).value;
      Some(DatesAfter(first, Ordinal(last) - Ordinal(first)))
  }

  function DatesAfter(start: Date, days: int): (dates: seq<string>)
    ensures |dates| == if days > 0 then days else 0
  {
    seq(if days > 0 then days else 0, i requires 0 <= i => Format(AddDays(start, i + 1)))
  }

  /** The dates resolved for the checkpoint from `a` to `b`. */
  function Window(a: Date, b: Date): seq<string>
    requires Valid(a) && Valid(b)
  {
    DatesAfter(a, Ordinal(b) - Ordinal(a))
  }

  lemma WindowIsResolved(a: Date, b: Date)
    requires Valid(a) && Valid(b)
    ensures ResolveTargetDates(Some(Format(a)), Some(Format(b)), None) == Some(Window(a, b))
  {
    ParseInvertsFormat(a);
    ParseInvertsFormat(b);
  }

  /** A partition date is the only date, whatever the watermarks. */
  lemma PartitionDateWins(start: Option<string>, end: Option<string>, date: string)
    requires date != ""
    ensures ResolveTargetDates(start, end, Some(date)) == Some([date])
  {
  }

  /** A first run, without a start, resolves to its end date. */
  lemma FirstRun(start: Option<string>, b: Date, partitionDate: Option<string>)
    requires Valid(b) && start in {None, Some("")} && partitionDate in {None, Some("")}
    ensures ResolveTargetDates(start, Some(Format(b)), partitionDate) == Some([Format(b)])
  {
    ParseInvertsFormat(b);
    assert |Format(b)| > 0;
  }

  /** Without an end there is no date, and texts that are no dates raise. */
  lemma NoDates(start: Option<string>, end: Option<string>, partitionDate: Option<string>)
    requires partitionDate in {None, Some("")}
    ensures end in {None, Some("")} ==> ResolveTargetDates(start, end, partitionDate) == Some([])
    ensures end !in {None, Some("")} && ParseDate(end.value) == None ==>
      ResolveTargetDates(start, end, partitionDate) == None
    ensures end !in {None, Some("")} && start !in {None, Some("")} && ParseDate(start.value) == None ==>
      ResolveTargetDates(start, end, partitionDate) == None
  {
  }

  lemma WindowEntry(a: Date, b: Date, i: nat)
    requires Valid(a) && Valid(b) && i < |Window(a, b)|
    ensures Window(a, b)[i] == Format(AddDays(a, i + 1))
    ensures Valid(AddDays(a, i + 1)) && Ordinal(AddDays(a, i + 1)) == Ordinal(a) + i + 1
  {
    AddDaysBetween(a, b, i + 1);
  }

  /** A window has exactly the dates after its start up to its end, in order. */
  lemma WindowIsExact(a: Date, b: Date, d: Date)
    requires Valid(a) && Valid(b) && Valid(d)
    ensures Format(d) in Window(a, b) <==> Before(a, d) && !Before(b, d)
    ensures forall i, j :: 0 <= i < j < |Window(a, b)| ==> Lt(Window(a, b)[i], Window(a, b)[j])
  {
    OrdinalOrder(a, d);
    OrdinalOrder(b, d);
    if Format(d) in Window(a, b) {
      var i :| 0 <= i < |Window(a, b)| && Window(a, b)[i] == Format(d);
      WindowEntry(a, b, i);
      SameText(d, AddDays(a, i + 1));
    } else if Before(a, d) && !Before(b, d) {
      var i := Ordinal(d) - Ordinal(a) - 1;
      WindowEntry(a, b, i);
      OrdinalOrder(d, AddDays(a, i + 1));
    }
    WindowAscends(a, b);
  }

  lemma SameText(a: Date, b: Date)
    requires Valid(a) && Valid(b) && Format(a) == Format(b)
    ensures a == b
  {
    ParseInvertsFormat(a);
    ParseInvertsFormat(b);
  }

  lemma WindowAscends(a: Date, b: Date)
    requires Valid(a) && Valid(b)
    ensures forall i, j :: 0 <= i < j < |Window(a, b)| ==> Lt(Window(a, b)[i], Window(a, b)[j])
  {
    forall i, j | 0 <= i < j < |Window(a, b)|
      ensures Lt(Window(a, b)[i], Window(a, b)[j])
    {
      WindowEntry(a, b, i);
      WindowEntry(a, b, j);
      OrdinalOrder(AddDays(a, i + 1), AddDays(a, j + 1));
      TextOrder(AddDays(a, i + 1), AddDays(a, j + 1));
    }
  }

  // ----- Chains of checkpoints

  predicate AllValid(chain: seq<Date>) {
    forall i :: 0 <= i < |chain| ==> Valid(chain[i])
  }

  /** What the checkpoints of a chain resolve to, one after another; each starts where the previous one ended. */
  function Resolved(chain: seq<Date>): seq<string>
    requires AllValid(chain)
  {
    if |chain| < 2 then [] else Window(chain[0], chain[1]) + Resolved(chain[1..])
  }

  predicate NeverBack(chain: seq<Date>) {
    |chain| < 2 || (!Before(chain[1], chain[0]) && NeverBack(chain[1..]))
  }

  predicate NeverForward(chain: seq<Date>) {
    |chain| < 2 || (!Before(chain[0], chain[1]) && NeverForward(chain[1..]))
  }

  lemma AddDaysAdds(d: Date, m: nat, n: nat)
    ensures AddDays(AddDays(d, m), n) == AddDays(d, m + n)
  {
  }

  lemma WindowsJoin(a: Date, b: Date, c: Date)
    requires Valid(a) && Valid(b) && Valid(c) && !Before(b, a) && !Before(c, b)
    ensures Window(a, b) + Window(b, c) == Window(a, c)
  {
    OrdinalOrder(b, a);
    OrdinalOrder(c, b);
    forall i | 0 <= i < |Window(b, c)|
      ensures Window(b, c)[i] == Window(a, c)[Ordinal(b) - Ordinal(a) + i]
    {
      LaterEntry(a, b, c, i);
    }
  }

  lemma DayBetween(a: Date, b: Date)
    requires Valid(a) && Valid(b) && Ordinal(a) <= Ordinal(b)
    ensures AddDays(a, Ordinal(b) - Ordinal(a)) == b
  {
    var m := Ordinal(b) - Ordinal(a);
    AddDaysBetween(a, b, m);
    OrdinalOrder(b, AddDays(a, m));
  }

  lemma SameDay(a: Date, b: Date, n: nat)
    requires Valid(a) && Valid(b) && Ordinal(a) <= Ordinal(b)
    ensures AddDays(b, n) == AddDays(a, Ordinal(b) - Ordinal(a) + n)
  {
    DayBetween(a, b);
    AddDaysAdds(a, Ordinal(b) - Ordinal(a), n);
  }

  lemma LaterEntry(a: Date, b: Date, c: Date, i: nat)
    requires Valid(a) && Valid(b) && Valid(c) && Ordinal(a) <= Ordinal(b) && Ordinal(b) + i < Ordinal(c)
    ensures Window(b, c)[i] == Window(a, c)[Ordinal(b) - Ordinal(a) + i]
  {
    WindowEntry(b, c, i);
    WindowEntry(a, c, Ordinal(b) - Ordinal(a) + i);
    SameDay(a, b, i + 1);
  }

  lemma {:induction false} RisingChainTiles(chain: seq<Date>)
    requires chain != [] && AllValid(chain) && NeverBack(chain)
    ensures Resolved(chain) == Window(chain[0], chain[|chain| - 1]) && !Before(chain[|chain| - 1], chain[0])
  {
    if |chain| > 1 {
      RisingChainTiles(chain[1..]);
      WindowsJoin(chain[0], chain[1], chain[|chain| - 1]);
    }
  }

  /** How many dates a chain resolves to: never fewer than the days from its first to its last date. */
  lemma {:induction false} ResolvedCount(chain: seq<Date>)
    requires chain != [] && AllValid(chain)
    ensures |Resolved(chain)| >= Ordinal(chain[|chain| - 1]) - Ordinal(chain[0])
    ensures |Resolved(chain)| == Ordinal(chain[|chain| - 1]) - Ordinal(chain[0]) ==> NeverBack(chain)
    ensures |Resolved(chain)| == 0 <==> NeverForward(chain)
  {
    if |chain| > 1 {
      ResolvedCount(chain[1..]);
      OrdinalOrder(chain[0], chain[1]);
      OrdinalOrder(chain[1], chain[0]);
    }
  }

  /**
   * Over a chain the windows give every date after the first start up to the last end, once and in order, exactly if
   * the watermark never moves back or never moves forward.
   */
  lemma {:induction false} WindowsTile(chain: seq<Date>)
    requires chain != [] && AllValid(chain)
    ensures Resolved(chain) == Window(chain[0], chain[|chain| - 1]) <==> NeverBack(chain) || NeverForward(chain)
  {
    ResolvedCount(chain);
    if NeverBack(chain) {
      RisingChainTiles(chain);
    }
  }
}
