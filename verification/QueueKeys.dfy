/** The sortable keys of the priority queue (libs/queue/priority/diskcache.py). */
module QueueKeys {
  import opened Decimals
  import opened Texts

  const QUEUE_NAMESPACE := "task_queue"
  const PROCESSING_NAMESPACE := "processing"
  const MICROS := 1_000_000

  /** What a queue key is made of; the timestamp counts microseconds, the six decimals that the key keeps. */
  datatype Place = Place(priority: nat, micros: nat, uid: string)

  function Stamp(micros: nat): string {
    Dec(micros / MICROS) + "." + Padded(micros % MICROS, 6)
  }

  function MakeQueueKey(p: Place): string {
    QUEUE_NAMESPACE + ":" + Padded(p.priority, 10) + ":" + Stamp(p.micros) + ":" + p.uid
  }

  function MakeProcessingKey(id: string): string {
    PROCESSING_NAMESPACE + ":" + id
  }

  /** `float(text)` on a stamp, in microseconds. */
  function ParseStamp(text: string): Option<nat> {
    var parts := Split(text, '.');
    if |parts| != 2 || |parts[1]| != 6 then None
    else
      match (ParseInt(parts[0]), ParseInt(parts[1]))
      case (Some(seconds), Some(fraction)) => Some(seconds * MICROS + fraction)
      case _ => None
  }

  /** `_parse_queue_key`: the last three fields; None where the code raises. */
  function ParseQueueKey(key: string): Option<Place> {
    var parts := Split(key, ':');
    if |parts| < 3 then None
    else
      match (ParseInt(parts[|parts| - 3]), ParseStamp(parts[|parts| - 2]))
      case (Some(priority), Some(micros)) => Some(Place(priority, micros, parts[|parts| - 1]))
      case _ => None
  }

  lemma ParseIntPadded(n: nat, w: nat)
    requires w > 0
    ensures ParseInt(Padded(n, w)) == Some(n)
  {
    PaddedField(n, w);
  }

  lemma ParseStampInverts(micros: nat)
    ensures ParseStamp(Stamp(micros)) == Some(micros) && ':' !in Stamp(micros)
  {
    var seconds, fraction := Dec(micros / MICROS), Padded(micros % MICROS, 6);
    assert Power10(6) == 1_000_000;
    PaddedField(micros % MICROS, 6);
    NumberOfDec(micros / MICROS);
    SplitPlain(seconds, '.');
    SplitAdds(seconds, fraction, '.');
    assert Stamp(micros) == seconds + ['.'] + fraction;
  }

  lemma SplitFields(a: string, b: string, c: string, d: string)
    requires ':' !in a && ':' !in b && ':' !in c && ':' !in d
    ensures Split(a + ":" + b + ":" + c + ":" + d, ':') == [a, b, c, d]
  {
    SplitPlain(a, ':');
    SplitAdds(a, b, ':');
    SplitAdds(a + ":" + b, c, ':');
    SplitAdds(a + ":" + b + ":" + c, d, ':');
  }

  /** Parsing inverts making, whatever the priority. */
  lemma ParseInvertsMake(p: Place)
    requires ':' !in p.uid
    ensures ParseQueueKey(MakeQueueKey(p)) == Some(p)
  {
    ParseStampInverts(p.micros);
    ParseIntPadded(p.priority, 10);
    SplitFields(QUEUE_NAMESPACE, Padded(p.priority, 10), Stamp(p.micros), p.uid);
  }

  /** Whatever stands in front of the last three fields is ignored. */
  lemma ParseIgnoresPrefix(prefix: string, p: Place)
    requires ':' !in p.uid
    ensures ParseQueueKey(prefix + ":" + Padded(p.priority, 10) + ":" + Stamp(p.micros) + ":" + p.uid) == Some(p)
  {
    var a, b := Padded(p.priority, 10), Stamp(p.micros);
    ParseStampInverts(p.micros);
    ParseIntPadded(p.priority, 10);
    SplitAdds(prefix, a, ':');
    SplitAdds(prefix + ":" + a, b, ':');
    SplitAdds(prefix + ":" + a + ":" + b, p.uid, ':');
    var parts := Split(prefix, ':');
    LastThree(parts, a, b, p.uid);
  }

  lemma LastThree(parts: seq<string>, a: string, b: string, c: string)
    ensures var all := parts + [a] + [b] + [c];
      |all| >= 3 && all[|all| - 3] == a && all[|all| - 2] == b && all[|all| - 1] == c
  {
  }

  /** Lower priority value first, then older first, then by uid. */
  predicate Before(a: Place, b: Place) {
    || a.priority < b.priority
    || (a.priority == b.priority && (a.micros < b.micros || (a.micros == b.micros && Lt(a.uid, b.uid))))
  }

  /** The integer part of a timestamp; it has ten digits from 2001 to 2286. */
  function SecondsWidth(micros: nat): nat {
    |Dec(micros / MICROS)|
  }

  lemma SecondsOrder(a: nat, b: nat)
    requires SecondsWidth(a) == SecondsWidth(b)
    ensures Lt(Dec(a / MICROS), Dec(b / MICROS)) <==> a / MICROS < b / MICROS
    ensures Dec(a / MICROS) == Dec(b / MICROS) <==> a / MICROS == b / MICROS
  {
    NumberOfDec(a / MICROS);
    NumberOfDec(b / MICROS);
    LtNumerals(Dec(a / MICROS), Dec(b / MICROS));
  }

  lemma LtPadded(a: nat, b: nat, w: nat)
    requires w > 0 && a < Power10(w) && b < Power10(w)
    ensures |Padded(a, w)| == |Padded(b, w)| == w
    ensures Lt(Padded(a, w), Padded(b, w)) <==> a < b
    ensures Padded(a, w) == Padded(b, w) <==> a == b
  {
    PaddedField(a, w);
    PaddedField(b, w);
    LtNumerals(Padded(a, w), Padded(b, w));
  }

  lemma LtStamps(a: nat, b: nat)
    requires SecondsWidth(a) == SecondsWidth(b)
    ensures |Stamp(a)| == |Stamp(b)|
    ensures Lt(Stamp(a), Stamp(b)) <==> a < b
    ensures Stamp(a) == Stamp(b) <==> a == b
  {
    SecondsOrder(a, b);
    assert Power10(6) == MICROS;
    LtPadded(a % MICROS, b % MICROS, 6);
    var x, y, u, v := Dec(a / MICROS), Dec(b / MICROS), Padded(a % MICROS, 6), Padded(b % MICROS, 6);
    LtSeparated(".", x, y, u, v);
    assert (x + "." + u)[..|x|] == x && (y + "." + v)[..|y|] == y;
    assert (x + "." + u)[|x| + 1..] == u && (y + "." + v)[|y| + 1..] == v;
  }

  lemma LtThreeFields(n: string, p: string, q: string, s: string, t: string, u: string, v: string)
    requires |p| == |q| && |s| == |t|
    ensures Lt(n + ":" + p + ":" + s + ":" + u, n + ":" + q + ":" + t + ":" + v) <==>
      Lt(p, q) || (p == q && (Lt(s, t) || (s == t && Lt(u, v))))
  {
    LtSeparated(":", s, t, u, v);
    LtSeparated(":", p, q, s + ":" + u, t + ":" + v);
    LtSeparated(":", n, n, p + ":" + (s + ":" + u), q + ":" + (t + ":" + v));
    LtIrreflexive(n);
    assert n + ":" + p + ":" + s + ":" + u == n + ":" + (p + ":" + (s + ":" + u));
    assert n + ":" + q + ":" + t + ":" + v == n + ":" + (q + ":" + (t + ":" + v));
  }

  /** The string order of queue keys is the order of their fields. */
  lemma KeyOrder(a: Place, b: Place)
    requires a.priority < Power10(10) && b.priority < Power10(10)
    requires SecondsWidth(a.micros) == SecondsWidth(b.micros)
    ensures Lt(MakeQueueKey(a), MakeQueueKey(b)) <==> Before(a, b)
  {
    LtPadded(a.priority, b.priority, 10);
    LtStamps(a.micros, b.micros);
    LtThreeFields(QUEUE_NAMESPACE, Padded(a.priority, 10), Padded(b.priority, 10),
                  Stamp(a.micros), Stamp(b.micros), a.uid, b.uid);
  }

  lemma WidthGrows(a: nat, b: nat, w: nat)
    requires a <= b
    ensures |Padded(a, w)| <= |Padded(b, w)|
  {
    DecWidth(b, |Dec(b)|);
    DecWidth(a, |Dec(b)|);
  }

  /** A field with a colon behind it comes before a longer field of digits only if it is less than that one's prefix. */
  lemma {:induction false} LtShorterField(p: string, q: string, x: string, y: string)
    requires AllDigits(q) && |p| <= |q| && p != q && x != [] && x[0] == ':'
    ensures Lt(p + x, q + y) <==> Lt(p, q[..|p|])
  {
    if p == [] {
      assert p + x == x && (q + y)[0] == q[0];
    } else {
      assert p == [p[0]] + p[1..] && q == [q[0]] + q[1..];
      assert (p + x)[1..] == p[1..] + x && (q + y)[1..] == q[1..] + y && q[..|p|][1..] == q[1..][..|p| - 1];
      if p[0] == q[0] {
        LtShorterField(p[1..], q[1..], x, y);
      }
    }
  }

  lemma LtLeading(p: string, q: string)
    requires AllDigits(p) && AllDigits(q) && |p| <= |q|
    ensures Lt(p, q[..|p|]) <==> NumberOf(p) < NumberOf(q) / Power10(|q| - |p|)
  {
    LeadingDigits(q, |q| - |p|);
    LtNumerals(p, q[..|p|]);
  }

  /** What follows the priority in a key. */
  function Rest(p: Place): string {
    ":" + (Stamp(p.micros) + ":" + p.uid)
  }

  lemma KeyShape(p: Place)
    ensures MakeQueueKey(p) == QUEUE_NAMESPACE + ":" + (Padded(p.priority, 10) + Rest(p))
  {
  }

  lemma LtFromPriority(a: Place, b: Place)
    ensures Lt(MakeQueueKey(a), MakeQueueKey(b)) <==>
      Lt(Padded(a.priority, 10) + Rest(a), Padded(b.priority, 10) + Rest(b))
  {
    var u, v := Padded(a.priority, 10) + Rest(a), Padded(b.priority, 10) + Rest(b);
    KeyShape(a);
    KeyShape(b);
    LtSeparated(":", QUEUE_NAMESPACE, QUEUE_NAMESPACE, u, v);
    LtIrreflexive(QUEUE_NAMESPACE);
  }

  /**
   * Whatever the priorities and timestamps: the lower priority value sorts first exactly if it is less than the leading
   * digits of the other one, as many as its own field has. The fields have ten digits or more.
   */
  lemma PriorityOrder(a: Place, b: Place)
    requires a.priority < b.priority
    ensures |Padded(a.priority, 10)| <= |Padded(b.priority, 10)|
    ensures Lt(MakeQueueKey(a), MakeQueueKey(b)) <==>
      a.priority < b.priority / Power10(|Padded(b.priority, 10)| - |Padded(a.priority, 10)|)
  {
    var p, q := Padded(a.priority, 10), Padded(b.priority, 10);
    WidthGrows(a.priority, b.priority, 10);
    PaddedField(a.priority, 10);
    PaddedField(b.priority, 10);
    LtLeading(p, q);
    LtShorterField(p, q, Rest(a), Rest(b));
    LtFromPriority(a, b);
  }

  lemma LongerSortsEarly(a: Place, b: Place)
    requires a.priority < b.priority <= 10 * a.priority && |Padded(a.priority, 10)| + 1 == |Padded(b.priority, 10)|
    ensures !Lt(MakeQueueKey(a), MakeQueueKey(b))
  {
    PriorityOrder(a, b);
    assert Power10(1) == 10;
  }

  lemma TenBillionIsWide()
    ensures Power10(10) == 10_000_000_000
    ensures |Padded(2_000_000_000, 10)| == 10 && |Padded(10_000_000_000, 10)| == 11
  {
    PaddedField(2_000_000_000, 10);
    PaddedField(10_000_000_000, 10);
    DecWidth(10_000_000_000, 11);
  }

  /** Below the limit, string order is the order of the fields. */
  ghost predicate OrderedBelow(limit: nat) {
    forall a: Place, b: Place ::
      a.priority < limit && b.priority < limit && SecondsWidth(a.micros) == SecondsWidth(b.micros) ==>
        (Lt(MakeQueueKey(a), MakeQueueKey(b)) <==> Before(a, b))
  }

  /** The keys are ordered for all priorities below a limit exactly if the limit is at most ten billion. */
  lemma PrioritiesInOrder(limit: nat)
    ensures OrderedBelow(limit) <==> limit <= Power10(10)
  {
    if limit <= Power10(10) {
      forall a: Place, b: Place
        | a.priority < limit && b.priority < limit && SecondsWidth(a.micros) == SecondsWidth(b.micros)
        ensures Lt(MakeQueueKey(a), MakeQueueKey(b)) <==> Before(a, b)
      {
        KeyOrder(a, b);
      }
    } else {
      var a, b := Place(2_000_000_000, 0, ""), Place(10_000_000_000, 0, "");
      TenBillionIsWide();
      LongerSortsEarly(a, b);
      assert Before(a, b) && SecondsWidth(a.micros) == SecondsWidth(b.micros);
    }
  }

  /** Keys of the two namespaces never mix. */
  lemma NamespacesAreDisjoint(p: Place, id: string)
    ensures QUEUE_NAMESPACE <= MakeQueueKey(p) && !(PROCESSING_NAMESPACE <= MakeQueueKey(p))
    ensures PROCESSING_NAMESPACE <= MakeProcessingKey(id) && !(QUEUE_NAMESPACE <= MakeProcessingKey(id))
  {
    assert MakeQueueKey(p)[0] == 't' && MakeProcessingKey(id)[0] == 'p';
  }
}
