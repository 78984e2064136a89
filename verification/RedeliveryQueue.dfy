/** The queue with redelivery, exponential backoff and a dead-letter state (libs/queue/diskcache.py). */
module RedeliveryQueue {
  import opened Texts

  datatype Status = Pending | InProcess | Dlq

  datatype Message = Message(
    id: string, payload: string, groupId: string, retryCount: nat, availableAt: int, status: Status)

  /** The cache of messages and the deque of their ids. */
  datatype Queue = Queue(cache: map<string, Message>, deque: seq<string>)

  datatype Policy = Policy(visibilityTimeout: int, maxRetries: int)

  function PowerOf2(n: nat): (p: int)
    ensures p >= 1
  {
    if n == 0 then 1 else 2 * PowerOf2(n - 1)
  }

  // ----- What the operations do

  /** Whether `dequeue` keeps an id in the deque when it comes past it. */
  predicate IsLive(cache: map<string, Message>, id: string) {
    id in cache && cache[id].status != Dlq
  }

  predicate IsReady(cache: map<string, Message>, id: string, now: int) {
    IsLive(cache, id) && cache[id].availableAt <= now
  }

  /** The live ids in order. */
  function Kept(cache: map<string, Message>, ids: seq<string>): seq<string> {
    if ids == [] then []
    else
      var init, last := ids[..|ids| - 1], ids[|ids| - 1];
      if IsLive(cache, last) then Kept(cache, init) + [last] else Kept(cache, init)
  }

  /** The first position whose message is ready when the scan reads the clock there; the length if there is none. */
  function FirstReady(q: Queue, clock: seq<int>, from: nat): (k: nat)
    requires from <= |q.deque| <= |clock|
    ensures from <= k <= |q.deque|
    ensures forall i :: from <= i < k ==> !IsReady(q.cache, q.deque[i], clock[i])
    ensures k < |q.deque| ==> IsReady(q.cache, q.deque[k], clock[k])
    decreases |q.deque| - from
  {
    if from == |q.deque| || IsReady(q.cache, q.deque[from], clock[from]) then from else FirstReady(q, clock, from + 1)
  }

  function Delivered(policy: Policy, m: Message, now: int): Message {
    m.(status := InProcess, availableAt := now + policy.visibilityTimeout, retryCount := m.retryCount + 1)
  }

  function Dequeued(policy: Policy, q: Queue, clock: seq<int>): Queue
    requires |q.deque| <= |clock|
  {
    var k := FirstReady(q, clock, 0);
    if k == |q.deque| then q.(deque := Kept(q.cache, q.deque))
    else
      var id := q.deque[k];
      Queue(q.cache[id := Delivered(policy, q.cache[id], clock[k])],
            q.deque[k + 1..] + Kept(q.cache, q.deque[..k]) + [id])
  }

  function Enqueued(q: Queue, id: string, payload: string, groupId: string, now: int): Queue {
    Queue(q.cache[id := Message(id, payload, groupId, 0, now, Pending)], q.deque + [id])
  }

  function Acked(q: Queue, id: string): Queue {
    q.(cache := q.cache - {id})
  }

  function NackedMessage(policy: Policy, m: Message, now: int): Message {
    if m.retryCount >= policy.maxRetries then m.(status := Dlq)
    else m.(status := Pending, availableAt := now + PowerOf2(m.retryCount) * 10)
  }

  function Nacked(policy: Policy, q: Queue, id: string, now: int): Queue {
    if id in q.cache then q.(cache := q.cache[id := NackedMessage(policy, q.cache[id], now)]) else q
  }

  /** The scan at position `i`: what is ahead, and the live ids it has passed. */
  function Scanned(q: Queue, i: nat): seq<string>
    requires i <= |q.deque|
  {
    q.deque[i..] + Kept(q.cache, q.deque[..i])
  }

  lemma PopLeft(q: Queue, i: nat)
    requires i < |q.deque|
    ensures Scanned(q, i)[0] == q.deque[i]
    ensures Scanned(q, i)[1..] == q.deque[i + 1..] + Kept(q.cache, q.deque[..i])
    ensures Scanned(q, i + 1) == Scanned(q, i)[1..] + (if IsLive(q.cache, q.deque[i]) then [q.deque[i]] else [])
  {
    assert q.deque[..i + 1][..i] == q.deque[..i];
    assert q.deque[i..][1..] == q.deque[i + 1..];
  }

  class DiskcacheQueue {
    const policy: Policy
    var cache: map<string, Message>
    var queue: seq<string>

    ghost function Contents(): Queue
      reads this
    {
      Queue(cache, queue)
    }

    constructor (visibilityTimeout: int, maxRetries: int)
      ensures policy == Policy(visibilityTimeout, maxRetries) && Contents() == Queue(map[], [])
    {
      policy := Policy(visibilityTimeout, maxRetries);
      cache, queue := map[], [];
    }

    method Enqueue(payload: string, groupId: string, jobId: string, now: int)
      modifies this
      ensures Contents() == Enqueued(old(Contents()), jobId, payload, groupId, now)
      ensures jobId in cache && cache[jobId].payload == payload && cache[jobId].groupId == groupId
    {
      cache := cache[jobId := Message(jobId, payload, groupId, 0, now, Pending)];
      queue := queue + [jobId];
    }

    /** One pass over the deque; `clock[i]` is what the clock shows in iteration `i`. */
    method Dequeue(clock: seq<int>) returns (r: Option<Message>)
      requires |queue| <= |clock|
      modifies this
      ensures Contents() == Dequeued(policy, old(Contents()), clock)
      ensures var q := old(Contents());
        var k := FirstReady(q, clock, 0);
        r == if k < |q.deque| then Some(Contents().cache[q.deque[k]]) else None
    {
      ghost var q := Contents();
      var n := |queue|;
      for i := 0 to n
        invariant cache == q.cache && queue == Scanned(q, i)
        invariant FirstReady(q, clock, 0) == FirstReady(q, clock, i)
      {
        PopLeft(q, i);
        var jobId := queue[0];
        queue := queue[1..];
        if jobId !in cache || cache[jobId].status == Dlq {
          continue;
        }
        var msg, now := cache[jobId], clock[i];
        if msg.availableAt <= now {
          msg := msg.(status := InProcess);
          msg := msg.(availableAt := now + policy.visibilityTimeout);
          msg := msg.(retryCount := msg.retryCount + 1);
          cache := cache[jobId := msg];
          queue := queue + [jobId];
          return Some(msg);
        }
        queue := queue + [jobId];
      }
      assert q.deque[..n] == q.deque;
      r := None;
    }

    /** A missing message raises a KeyError, here `ok == false`. */
    method Ack(jobId: string) returns (ok: bool)
      modifies this
      ensures ok <==> jobId in old(cache)
      ensures Contents() == Acked(old(Contents()), jobId)
    {
      ok := jobId in cache;
      cache := cache - {jobId};
    }

    method Nack(jobId: string, now: int)
      modifies this
      ensures Contents() == Nacked(policy, old(Contents()), jobId, now)
    {
      if jobId !in cache {
        return;
      }
      var msg := cache[jobId];
      if msg.retryCount >= policy.maxRetries {
        msg := msg.(status := Dlq);
      } else {
        msg := msg.(status := Pending);
        var wait := PowerOf2(msg.retryCount) * 10;
        msg := msg.(availableAt := now + wait);
      }
      cache := cache[jobId := msg];
    }
  }

  // ----- The deque

  predicate NoRepeats(ids: seq<string>) {
    forall i, j :: 0 <= i < j < |ids| ==> ids[i] != ids[j]
  }

  lemma {:induction false} KeptMembers(cache: map<string, Message>, ids: seq<string>, id: string)
    ensures id in Kept(cache, ids) <==> id in ids && IsLive(cache, id)
  {
    if ids != [] {
      var init, last := ids[..|ids| - 1], ids[|ids| - 1];
      KeptMembers(cache, init, id);
      assert ids == init + [last];
    }
  }

  lemma NoRepeatsJoin(a: seq<string>, b: seq<string>)
    requires NoRepeats(a) && NoRepeats(b) && forall x :: x in a ==> x !in b
    ensures NoRepeats(a + b)
  {
    forall i, j | 0 <= i < j < |a + b|
      ensures (a + b)[i] != (a + b)[j]
    {
      assert i < |a| ==> a[i] in a;
      assert j >= |a| ==> b[j - |a|] in b;
    }
  }

  lemma {:induction false} KeptNoRepeats(cache: map<string, Message>, ids: seq<string>)
    requires NoRepeats(ids)
    ensures NoRepeats(Kept(cache, ids))
  {
    if ids != [] {
      var init, last := ids[..|ids| - 1], ids[|ids| - 1];
      KeptNoRepeats(cache, init);
      KeptMembers(cache, init, last);
      forall x | x in Kept(cache, init)
        ensures x !in [last]
      {
        KeptMembers(cache, init, x);
      }
      NoRepeatsJoin(Kept(cache, init), [last]);
    }
  }

  /** The deque repeats no id and has the id of every message that is not dead; dead messages used up their retries. */
  ghost predicate Inv(policy: Policy, q: Queue) {
    && NoRepeats(q.deque)
    && (forall id :: IsLive(q.cache, id) ==> id in q.deque)
    && (forall id :: id in q.cache && q.cache[id].status == Dlq ==> q.cache[id].retryCount >= policy.maxRetries)
  }

  lemma RotationMembers(q: Queue, k: nat, id: string)
    requires k < |q.deque|
    ensures id in q.deque[k + 1..] + Kept(q.cache, q.deque[..k]) + [q.deque[k]] <==>
      id in q.deque[k + 1..] || id == q.deque[k] || (id in q.deque[..k] && IsLive(q.cache, id))
  {
    KeptMembers(q.cache, q.deque[..k], id);
  }

  lemma RotationNoRepeats(q: Queue, k: nat)
    requires k < |q.deque| && NoRepeats(q.deque)
    ensures NoRepeats(q.deque[k + 1..] + Kept(q.cache, q.deque[..k]) + [q.deque[k]])
  {
    var later, kept, id := q.deque[k + 1..], Kept(q.cache, q.deque[..k]), q.deque[k];
    KeptNoRepeats(q.cache, q.deque[..k]);
    forall x | x in later
      ensures x !in kept && x != id
    {
      KeptMembers(q.cache, q.deque[..k], x);
    }
    KeptMembers(q.cache, q.deque[..k], id);
    NoRepeatsJoin(later, kept);
    NoRepeatsJoin(later + kept, [id]);
  }

  lemma DequeueKeepsInv(policy: Policy, q: Queue, clock: seq<int>)
    requires Inv(policy, q) && |q.deque| <= |clock|
    ensures Inv(policy, Dequeued(policy, q, clock))
  {
    var k := FirstReady(q, clock, 0);
    if k == |q.deque| {
      KeptNoRepeats(q.cache, q.deque);
      forall id | IsLive(q.cache, id)
        ensures id in Kept(q.cache, q.deque)
      {
        KeptMembers(q.cache, q.deque, id);
      }
    } else {
      RotationNoRepeats(q, k);
      forall id | IsLive(Dequeued(policy, q, clock).cache, id)
        ensures id in Dequeued(policy, q, clock).deque
      {
        RotationMembers(q, k, id);
        assert IsLive(q.cache, id);
        assert q.deque == q.deque[..k] + [q.deque[k]] + q.deque[k + 1..];
      }
    }
  }

  /**
   * A message that is available when the call begins makes it return a message, if the clock does not run backwards.
   */
  lemma AvailableMeansDelivered(policy: Policy, q: Queue, clock: seq<int>, id: string, start: int)
    requires Inv(policy, q) && |q.deque| <= |clock| && IsReady(q.cache, id, start)
    requires forall i :: 0 <= i < |clock| ==> start <= clock[i]
    ensures FirstReady(q, clock, 0) < |q.deque|
  {
    var i :| 0 <= i < |q.deque| && q.deque[i] == id;
    assert IsReady(q.cache, q.deque[i], clock[i]);
  }

  // ----- Runs

  datatype Event =
    | Enqueue(id: string, payload: string, groupId: string, now: int)
    | Dequeue(clock: seq<int>)
    | Ack(id: string)
    | Nack(id: string, now: int)

  /** The queue and the last reading of the clock. */
  datatype State = State(queue: Queue, time: int)

  predicate Ascending(clock: seq<int>, from: int) {
    && (forall i :: 0 <= i < |clock| ==> from <= clock[i])
    && (forall i, j :: 0 <= i < j < |clock| ==> clock[i] <= clock[j])
  }

  /** Ids are fresh and the clock does not run backwards. */
  predicate Enabled(s: State, e: Event) {
    match e
    case Enqueue(id, _, _, now) => id !in s.queue.cache && id !in s.queue.deque && s.time <= now
    case Dequeue(clock) => |clock| == |s.queue.deque| && Ascending(clock, s.time)
    case Ack(_) => true
    case Nack(_, now) => s.time <= now
  }

  function Next(policy: Policy, s: State, e: Event): State
    requires Enabled(s, e)
  {
    match e
    case Enqueue(id, payload, groupId, now) => State(Enqueued(s.queue, id, payload, groupId, now), now)
    case Dequeue(clock) =>
      State(Dequeued(policy, s.queue, clock), if clock == [] then s.time else clock[|clock| - 1])
    case Ack(id) => s.(queue := Acked(s.queue, id))
    case Nack(id, now) => State(Nacked(policy, s.queue, id, now), now)
  }

  /** The time at which an event delivers the message `id`, if it does. */
  function DeliveryTime(s: State, e: Event, id: string): Option<int>
    requires Enabled(s, e)
  {
    if e.Dequeue? then
      var k := FirstReady(s.queue, e.clock, 0);
      if k < |s.queue.deque| && s.queue.deque[k] == id then Some(e.clock[k]) else None
    else None
  }

  lemma StepKeepsInv(policy: Policy, s: State, e: Event)
    requires Inv(policy, s.queue) && Enabled(s, e)
    ensures Inv(policy, Next(policy, s, e).queue)
  {
    match e
    case Enqueue(id, _, _, _) => NoRepeatsJoin(s.queue.deque, [id]);
    case Dequeue(clock) => DequeueKeepsInv(policy, s.queue, clock);
    case Ack(_) =>
    case Nack(_, _) =>
  }

  // ----- Backoff

  /** What the deliveries `times` of one message, each nacked before it timed out, have led to so far. */
  ghost predicate Backoff(policy: Policy, s: State, id: string, times: seq<int>) {
    && (forall n :: 0 <= n < |times| ==> times[n] <= s.time && times[n] >= times[0] + 10 * (PowerOf2(n + 1) - 2))
    && |times| <= Limit(policy)
    && (id in s.queue.cache ==>
          var m := s.queue.cache[id];
          && m.retryCount == |times|
          && (m.status == Pending && times != [] ==>
                |times| < policy.maxRetries && m.availableAt >= times[|times| - 1] + 10 * PowerOf2(|times|)))
  }

  function Limit(policy: Policy): int {
    if policy.maxRetries > 1 then policy.maxRetries else 1
  }

  /** A delivery that is not a redelivery after a timeout: the message was waiting for it. */
  predicate IsPrompt(s: State, e: Event, id: string)
    requires Enabled(s, e)
  {
    DeliveryTime(s, e, id).Some? ==> s.queue.cache[id].status == Pending
  }

  function Longer(times: seq<int>, t: Option<int>): seq<int> {
    if t.Some? then times + [t.value] else times
  }

  lemma OtherMessageKept(policy: Policy, s: State, e: Event, id: string)
    requires Enabled(s, e) && id in s.queue.cache && e != Ack(id) && DeliveryTime(s, e, id) == None
    requires !(e.Nack? && e.id == id)
    ensures id in Next(policy, s, e).queue.cache && Next(policy, s, e).queue.cache[id] == s.queue.cache[id]
  {
  }

  lemma DeliveryKeepsBackoff(policy: Policy, s: State, e: Event, id: string, times: seq<int>)
    requires Enabled(s, e) && Backoff(policy, s, id, times) && DeliveryTime(s, e, id).Some? && IsPrompt(s, e, id)
    ensures Backoff(policy, Next(policy, s, e), id, times + [DeliveryTime(s, e, id).value])
  {
    var k := FirstReady(s.queue, e.clock, 0);
    assert IsReady(s.queue.cache, id, e.clock[k]);
    if times != [] {
      assert times[|times| - 1] >= times[0] + 10 * (PowerOf2(|times|) - 2);
      assert PowerOf2(|times| + 1) == 2 * PowerOf2(|times|);
    } else {
      assert PowerOf2(1) == 2 * PowerOf2(0);
    }
  }

  lemma StepKeepsBackoff(policy: Policy, s: State, e: Event, id: string, times: seq<int>)
    requires Enabled(s, e) && Backoff(policy, s, id, times) && IsPrompt(s, e, id)
    requires e.Enqueue? && e.id == id ==> times == []
    ensures Backoff(policy, Next(policy, s, e), id, Longer(times, DeliveryTime(s, e, id)))
  {
    if DeliveryTime(s, e, id).Some? {
      DeliveryKeepsBackoff(policy, s, e, id, times);
    } else if id in s.queue.cache && !(e.Nack? && e.id == id) && e != Ack(id) {
      OtherMessageKept(policy, s, e, id);
    }
  }

  ghost predicate IsRun(policy: Policy, s: State, events: seq<Event>)
    decreases |events|
  {
    events == [] || (Enabled(s, events[0]) && IsRun(policy, Next(policy, s, events[0]), events[1..]))
  }

  ghost function After(policy: Policy, s: State, events: seq<Event>): State
    requires IsRun(policy, s, events)
    decreases |events|
  {
    if events == [] then s else After(policy, Next(policy, s, events[0]), events[1..])
  }

  /** The times at which a run delivers the message. */
  ghost function Deliveries(policy: Policy, s: State, events: seq<Event>, id: string): seq<int>
    requires IsRun(policy, s, events)
    decreases |events|
  {
    if events == [] then []
    else Longer([], DeliveryTime(s, events[0], id)) + Deliveries(policy, Next(policy, s, events[0]), events[1..], id)
  }

  /** Every redelivery of `id` in the run follows a nack, and no other message gets the same id. */
  ghost predicate AllPrompt(policy: Policy, s: State, events: seq<Event>, id: string)
    requires IsRun(policy, s, events)
    decreases |events|
  {
    events == [] ||
    (IsPrompt(s, events[0], id) && !(events[0].Enqueue? && events[0].id == id)
     && AllPrompt(policy, Next(policy, s, events[0]), events[1..], id))
  }

  lemma {:induction false} RunKeepsInv(policy: Policy, s: State, events: seq<Event>)
    requires Inv(policy, s.queue) && IsRun(policy, s, events)
    ensures Inv(policy, After(policy, s, events).queue)
    decreases |events|
  {
    if events != [] {
      StepKeepsInv(policy, s, events[0]);
      RunKeepsInv(policy, Next(policy, s, events[0]), events[1..]);
    }
  }

  lemma {:induction false} RunKeepsBackoff(policy: Policy, s: State, events: seq<Event>, id: string, times: seq<int>,
                                           all: seq<int>)
    requires IsRun(policy, s, events) && AllPrompt(policy, s, events, id) && Backoff(policy, s, id, times)
    requires all == times + Deliveries(policy, s, events, id)
    ensures Backoff(policy, After(policy, s, events), id, all)
    decreases |events|
  {
    if events == [] {
      assert all == times;
    } else {
      var t, next := DeliveryTime(s, events[0], id), Next(policy, s, events[0]);
      StepKeepsBackoff(policy, s, events[0], id, times);
      RunKeepsBackoff(policy, next, events[1..], id, Longer(times, t), all);
    }
  }

  /**
   * If every delivery of a new message is nacked before it times out, there are at most max(1, max_retries) of them,
   * and the n-th comes at least 10 * (2^n - 2) seconds after the first.
   */
  lemma BackoffSchedule(policy: Policy, s: State, events: seq<Event>, id: string)
    requires id in s.queue.cache && s.queue.cache[id].retryCount == 0 && s.queue.cache[id].status == Pending
    requires IsRun(policy, s, events) && AllPrompt(policy, s, events, id)
    ensures
      var times := Deliveries(policy, s, events, id);
      && |times| <= Limit(policy)
      && forall n :: 1 <= n <= |times| ==> times[n - 1] >= times[0] + 10 * (PowerOf2(n) - 2)
  {
    var times := Deliveries(policy, s, events, id);
    assert [] + times == times;
    RunKeepsBackoff(policy, s, events, id, [], times);
    forall n | 1 <= n <= |times|
      ensures times[n - 1] >= times[0] + 10 * (PowerOf2(n) - 2)
    {
      assert times[n - 1] >= times[0] + 10 * (PowerOf2(n - 1 + 1) - 2);
    }
  }

  // ----- Dead letters

  lemma DeadStep(policy: Policy, s: State, e: Event, id: string)
    requires Inv(policy, s.queue) && Enabled(s, e) && e != Ack(id)
    requires id in s.queue.cache && s.queue.cache[id].status == Dlq
    ensures DeliveryTime(s, e, id) == None
    ensures id in Next(policy, s, e).queue.cache && Next(policy, s, e).queue.cache[id] == s.queue.cache[id]
  {
    if e.Dequeue? {
      var k := FirstReady(s.queue, e.clock, 0);
      assert k < |s.queue.deque| ==> IsReady(s.queue.cache, s.queue.deque[k], e.clock[k]);
    }
  }

  /** A dead message stays as it is, and is never delivered, until it is acknowledged. */
  lemma {:induction false} DeadStaysDead(policy: Policy, s: State, events: seq<Event>, id: string)
    requires Inv(policy, s.queue) && IsRun(policy, s, events) && Ack(id) !in events
    requires id in s.queue.cache && s.queue.cache[id].status == Dlq
    ensures Deliveries(policy, s, events, id) == []
    ensures var q := After(policy, s, events).queue; id in q.cache && q.cache[id] == s.queue.cache[id]
    decreases |events|
  {
    if events != [] {
      StepKeepsInv(policy, s, events[0]);
      DeadStep(policy, s, events[0], id);
      DeadStaysDead(policy, Next(policy, s, events[0]), events[1..], id);
    }
  }

  // ----- Redelivery after a timeout

  /** How many deliveries of the message in the run find it still in process: a timeout, not a nack, brought it back. */
  ghost function Timeouts(policy: Policy, s: State, events: seq<Event>, id: string): nat
    requires IsRun(policy, s, events)
    decreases |events|
  {
    if events == [] then 0
    else
      (if IsPrompt(s, events[0], id) then 0 else 1) + Timeouts(policy, Next(policy, s, events[0]), events[1..], id)
  }

  /** The deliveries that nacks still allow; a waiting message has one. */
  function Allowed(policy: Policy, s: State, id: string): nat {
    if id in s.queue.cache && s.queue.cache[id].retryCount < Limit(policy)
    then Limit(policy) - s.queue.cache[id].retryCount else 0
  }

  predicate WaitingIsAllowed(policy: Policy, s: State, id: string) {
    id in s.queue.cache && s.queue.cache[id].status == Pending ==> Allowed(policy, s, id) > 0
  }

  lemma StepUsesAllowed(policy: Policy, s: State, e: Event, id: string)
    requires Enabled(s, e) && WaitingIsAllowed(policy, s, id) && !(e.Enqueue? && e.id == id)
    ensures WaitingIsAllowed(policy, Next(policy, s, e), id)
    ensures Allowed(policy, Next(policy, s, e), id) <= Allowed(policy, s, id)
    ensures DeliveryTime(s, e, id).Some? && IsPrompt(s, e, id) ==>
      Allowed(policy, Next(policy, s, e), id) < Allowed(policy, s, id)
  {
    if e.Dequeue? {
      var k := FirstReady(s.queue, e.clock, 0);
      assert k < |s.queue.deque| ==> IsReady(s.queue.cache, s.queue.deque[k], e.clock[k]);
    }
  }

  predicate NotReused(events: seq<Event>, id: string) {
    forall i :: 0 <= i < |events| ==> !(events[i].Enqueue? && events[i].id == id)
  }

  lemma {:induction false} RunUsesAllowed(policy: Policy, s: State, events: seq<Event>, id: string)
    requires IsRun(policy, s, events) && NotReused(events, id) && WaitingIsAllowed(policy, s, id)
    ensures |Deliveries(policy, s, events, id)| <= Allowed(policy, s, id) + Timeouts(policy, s, events, id)
    decreases |events|
  {
    if events != [] {
      StepUsesAllowed(policy, s, events[0], id);
      RunUsesAllowed(policy, Next(policy, s, events[0]), events[1..], id);
    }
  }

  /**
   * In every run, with any timeouts and nacks, a new message is delivered at most max(1, max_retries) times, not
   * counting the redeliveries after a timeout: only timeouts get past the limit.
   */
  lemma OnlyTimeoutsExceedLimit(policy: Policy, s: State, events: seq<Event>, id: string)
    requires id in s.queue.cache && s.queue.cache[id].retryCount == 0 && s.queue.cache[id].status == Pending
    requires IsRun(policy, s, events) && NotReused(events, id)
    ensures |Deliveries(policy, s, events, id)| <= Limit(policy) + Timeouts(policy, s, events, id)
  {
    RunUsesAllowed(policy, s, events, id);
  }

  function Position(ids: seq<string>, id: string): (i: nat)
    requires id in ids
    ensures i < |ids| && ids[i] == id && forall j :: 0 <= j < |ids| && ids[j] == id ==> i <= j
  {
    if ids[0] == id then 0 else 1 + Position(ids[1..], id)
  }

  /** A dequeue that delivers a message ahead of `id` moves `id` forward. */
  lemma MovesForward(policy: Policy, q: Queue, clock: seq<int>, id: string)
    requires |q.deque| <= |clock| && id in q.deque && FirstReady(q, clock, 0) < Position(q.deque, id)
    ensures var deque := Dequeued(policy, q, clock).deque; id in deque && Position(deque, id) < Position(q.deque, id)
  {
    var k, i := FirstReady(q, clock, 0), Position(q.deque, id);
    assert Dequeued(policy, q, clock).deque[i - k - 1] == id;
  }

  /** A dequeue when the message is due delivers it or moves it forward. */
  lemma DueIsDeliveredOrMoves(policy: Policy, q: Queue, clock: seq<int>, id: string)
    requires |q.deque| == |clock| && id in q.deque && IsLive(q.cache, id)
    requires forall i :: 0 <= i < |clock| ==> clock[i] >= q.cache[id].availableAt
    ensures var k, next := FirstReady(q, clock, 0), Dequeued(policy, q, clock);
      && k < |q.deque| && IsLive(next.cache, id) && id in next.deque
      && if q.deque[k] == id then next.cache[id] == Delivered(policy, q.cache[id], clock[k])
         else next.cache[id] == q.cache[id] && Position(next.deque, id) < Position(q.deque, id)
  {
    var k, i := FirstReady(q, clock, 0), Position(q.deque, id);
    assert IsReady(q.cache, q.deque[i], clock[i]);
    if k < i {
      MovesForward(policy, q, clock, id);
    }
  }

  lemma DequeueWhenDue(policy: Policy, s: State, id: string) returns (e: Event)
    requires IsLive(s.queue.cache, id) && id in s.queue.deque
    ensures e.Dequeue? && Enabled(s, e)
    ensures var due := s.queue.cache[id].availableAt;
      var now := if due > s.time then due else s.time;
      Next(policy, s, e).time == now && DeliveryTime(s, e, id) in {None, Some(now)}
    ensures var q := Next(policy, s, e).queue;
      && IsLive(q.cache, id) && id in q.deque
      && if DeliveryTime(s, e, id).Some?
         then q.cache[id] == Delivered(policy, s.queue.cache[id], DeliveryTime(s, e, id).value)
         else q.cache[id] == s.queue.cache[id] && Position(q.deque, id) < Position(s.queue.deque, id)
  {
    var due := s.queue.cache[id].availableAt;
    var now := if due > s.time then due else s.time;
    var clock := seq(|s.queue.deque|, _ => now);
    e := Dequeue(clock);
    DueIsDeliveredOrMoves(policy, s.queue, clock, id);
  }

  predicate OnlyDequeues(events: seq<Event>) {
    forall i :: 0 <= i < |events| ==> events[i].Dequeue?
  }

  /**
   * Timeouts have no limit: from every state, whatever else is queued, some run delivers a message of the deque any
   * number of times, all of them after timeouts but the first if the message was waiting.
   */
  lemma {:induction false} TimeoutsAreNotLimited(policy: Policy, s: State, id: string, n: nat)
    returns (events: seq<Event>)
    requires IsLive(s.queue.cache, id) && id in s.queue.deque
    ensures IsRun(policy, s, events) && OnlyDequeues(events) && |Deliveries(policy, s, events, id)| == n
    ensures Timeouts(policy, s, events, id) == if n > 0 && s.queue.cache[id].status == Pending then n - 1 else n
    decreases n, Position(s.queue.deque, id)
  {
    if n == 0 {
      events := [];
    } else {
      var e := DequeueWhenDue(policy, s, id);
      var rest :=
        TimeoutsAreNotLimited(policy, Next(policy, s, e), id, if DeliveryTime(s, e, id).Some? then n - 1 else n);
      events := [e] + rest;
      assert events[1..] == rest;
    }
  }

  lemma NackAgain(policy: Policy, s: State, id: string) returns (e: Event)
    requires IsLive(s.queue.cache, id) && id in s.queue.deque && s.queue.cache[id].retryCount < policy.maxRetries
    ensures e.Nack? && Enabled(s, e) && DeliveryTime(s, e, id) == None
    ensures var q := Next(policy, s, e).queue;
      && id in q.cache && q.cache[id].status == Pending && q.cache[id].retryCount == s.queue.cache[id].retryCount
      && id in q.deque
  {
    e := Nack(id, s.time);
  }

  lemma RunStep(policy: Policy, s: State, e: Event, rest: seq<Event>, id: string)
    requires Enabled(s, e) && IsRun(policy, Next(policy, s, e), rest)
    ensures IsRun(policy, s, [e] + rest)
    ensures Deliveries(policy, s, [e] + rest, id)
         == Longer([], DeliveryTime(s, e, id)) + Deliveries(policy, Next(policy, s, e), rest, id)
    ensures Timeouts(policy, s, [e] + rest, id)
         == (if IsPrompt(s, e, id) then 0 else 1) + Timeouts(policy, Next(policy, s, e), rest, id)
  {
    assert ([e] + rest)[1..] == rest;
  }

  /** The limit is reached: some run delivers a waiting message as often as nacks and `n` timeouts allow. */
  lemma {:induction false} LimitIsReached(policy: Policy, s: State, id: string, n: nat) returns (events: seq<Event>)
    requires id in s.queue.cache && s.queue.cache[id].status == Pending && id in s.queue.deque
    requires Allowed(policy, s, id) > 0
    ensures IsRun(policy, s, events) && NotReused(events, id)
    ensures Timeouts(policy, s, events, id) == n
    ensures |Deliveries(policy, s, events, id)| == Allowed(policy, s, id) + n
    decreases Allowed(policy, s, id), Position(s.queue.deque, id)
  {
    var e := DequeueWhenDue(policy, s, id);
    var next := Next(policy, s, e);
    var rest: seq<Event>;
    if DeliveryTime(s, e, id) == None {
      rest := LimitIsReached(policy, next, id, n);
    } else if Allowed(policy, next, id) == 0 {
      rest := TimeoutsAreNotLimited(policy, next, id, n);
    } else {
      var nack := NackAgain(policy, next, id);
      var later := LimitIsReached(policy, Next(policy, next, nack), id, n);
      RunStep(policy, next, nack, later, id);
      rest := [nack] + later;
    }
    RunStep(policy, s, e, rest, id);
    events := [e] + rest;
  }

  // ----- Ids that are not in the deque

  lemma StaysOutside(policy: Policy, s: State, e: Event, id: string)
    requires Enabled(s, e) && id !in s.queue.deque && !(e.Enqueue? && e.id == id)
    ensures DeliveryTime(s, e, id) == None && id !in Next(policy, s, e).queue.deque
  {
    if e.Dequeue? {
      var q, k := s.queue, FirstReady(s.queue, e.clock, 0);
      if k == |q.deque| {
        KeptMembers(q.cache, q.deque, id);
      } else {
        RotationMembers(q, k, id);
      }
    }
  }

  lemma {:induction false} NeverDelivered(policy: Policy, s: State, events: seq<Event>, id: string)
    requires IsRun(policy, s, events) && NotReused(events, id) && id !in s.queue.deque
    ensures Deliveries(policy, s, events, id) == []
    decreases |events|
  {
    if events != [] {
      StaysOutside(policy, s, events[0], id);
      NeverDelivered(policy, Next(policy, s, events[0]), events[1..], id);
    }
  }

  /** Some run delivers the message, and not another one that was given its id. */
  ghost predicate CanBeDelivered(policy: Policy, s: State, id: string) {
    exists events :: IsRun(policy, s, events) && NotReused(events, id) && Deliveries(policy, s, events, id) != []
  }

  /**
   * A cached message that is not dead can be delivered again exactly if its id is in the deque. A process that stops
   * between taking an id out of the deque and putting it back therefore strands the message for good.
   */
  lemma OnlyQueuedAreDelivered(policy: Policy, s: State, id: string)
    requires IsLive(s.queue.cache, id)
    ensures CanBeDelivered(policy, s, id) <==> id in s.queue.deque
  {
    if id in s.queue.deque {
      var events := TimeoutsAreNotLimited(policy, s, id, 1);
      assert NotReused(events, id) && Deliveries(policy, s, events, id) != [];
    } else {
      forall events | IsRun(policy, s, events) && NotReused(events, id)
        ensures Deliveries(policy, s, events, id) == []
      {
        NeverDelivered(policy, s, events, id);
      }
    }
  }

  // ----- How long a message is hidden

  /** No nack, no acknowledgement and no new message of this id. */
  predicate Untouched(events: seq<Event>, id: string) {
    forall i :: 0 <= i < |events| ==>
      events[i] != Ack(id) && !((events[i].Enqueue? || events[i].Nack?) && events[i].id == id)
  }

  lemma UntouchedStep(policy: Policy, s: State, e: Event, id: string)
    requires Enabled(s, e) && e != Ack(id) && !((e.Enqueue? || e.Nack?) && e.id == id)
    ensures id in Next(policy, s, e).queue.cache <==> id in s.queue.cache
    ensures DeliveryTime(s, e, id).Some? ==>
      && id in s.queue.cache && DeliveryTime(s, e, id).value >= s.queue.cache[id].availableAt
      && Next(policy, s, e).queue.cache[id].availableAt == DeliveryTime(s, e, id).value + policy.visibilityTimeout
    ensures DeliveryTime(s, e, id) == None && id in s.queue.cache ==>
      Next(policy, s, e).queue.cache[id] == s.queue.cache[id]
  {
    if e.Dequeue? {
      var k := FirstReady(s.queue, e.clock, 0);
      assert k < |s.queue.deque| ==> IsReady(s.queue.cache, s.queue.deque[k], e.clock[k]);
    }
  }

  /** Without a nack, deliveries of a message are at least the visibility timeout apart. */
  lemma {:induction false} DeliveriesAreSpaced(policy: Policy, s: State, events: seq<Event>, id: string)
    requires IsRun(policy, s, events) && Untouched(events, id)
    ensures var times := Deliveries(policy, s, events, id);
      && (times != [] ==> id in s.queue.cache && times[0] >= s.queue.cache[id].availableAt)
      && forall n :: 0 <= n < |times| - 1 ==> times[n + 1] >= times[n] + policy.visibilityTimeout
    decreases |events|
  {
    if events != [] {
      UntouchedStep(policy, s, events[0], id);
      DeliveriesAreSpaced(policy, Next(policy, s, events[0]), events[1..], id);
    }
  }

  /** A message in the deque can be delivered as soon as it is available. */
  lemma {:induction false} DeliveredWhenDue(policy: Policy, s: State, id: string) returns (events: seq<Event>)
    requires IsLive(s.queue.cache, id) && id in s.queue.deque
    ensures IsRun(policy, s, events) && OnlyDequeues(events)
    ensures var due := s.queue.cache[id].availableAt;
      Deliveries(policy, s, events, id) == [if due > s.time then due else s.time]
    decreases Position(s.queue.deque, id)
  {
    var e := DequeueWhenDue(policy, s, id);
    var rest: seq<Event> := [];
    if DeliveryTime(s, e, id) == None {
      rest := DeliveredWhenDue(policy, Next(policy, s, e), id);
    }
    RunStep(policy, s, e, rest, id);
    events := [e] + rest;
  }

  /** The message is delivered next at `due`, in some run, and without a nack in no run any earlier. */
  ghost predicate ComesBackAt(policy: Policy, s: State, id: string, due: int) {
    && (forall events ::
          IsRun(policy, s, events) && Untouched(events, id) && Deliveries(policy, s, events, id) != [] ==>
            Deliveries(policy, s, events, id)[0] >= due)
    && (exists events :: IsRun(policy, s, events) && OnlyDequeues(events) && Deliveries(policy, s, events, id) == [due])
  }

  lemma BackWhenDue(policy: Policy, s: State, id: string, due: int)
    requires IsLive(s.queue.cache, id) && id in s.queue.deque && s.queue.cache[id].availableAt == due >= s.time
    ensures ComesBackAt(policy, s, id, due)
  {
    forall events | IsRun(policy, s, events) && Untouched(events, id) && Deliveries(policy, s, events, id) != []
      ensures Deliveries(policy, s, events, id)[0] >= due
    {
      DeliveriesAreSpaced(policy, s, events, id);
    }
    var events := DeliveredWhenDue(policy, s, id);
    assert OnlyDequeues(events) && Deliveries(policy, s, events, id) == [due];
  }

  lemma DeliveredStays(policy: Policy, s: State, e: Event, id: string)
    requires Enabled(s, e) && DeliveryTime(s, e, id).Some?
    ensures var q := Next(policy, s, e).queue;
      && IsLive(q.cache, id) && id in q.deque
      && q.cache[id].availableAt == DeliveryTime(s, e, id).value + policy.visibilityTimeout
  {
  }

  /** A delivered message comes back after the visibility timeout: not a second earlier and not a second later. */
  lemma VisibilityTimeout(policy: Policy, s: State, e: Event, id: string)
    requires Enabled(s, e) && DeliveryTime(s, e, id).Some?
    requires DeliveryTime(s, e, id).value + policy.visibilityTimeout >= Next(policy, s, e).time
    ensures ComesBackAt(policy, Next(policy, s, e), id, DeliveryTime(s, e, id).value + policy.visibilityTimeout)
  {
    DeliveredStays(policy, s, e, id);
    BackWhenDue(policy, Next(policy, s, e), id, DeliveryTime(s, e, id).value + policy.visibilityTimeout);
  }

  /** A new message is available at once. */
  lemma NewIsAvailable(policy: Policy, s: State, id: string, payload: string, groupId: string, now: int)
    requires Enabled(s, Enqueue(id, payload, groupId, now))
    ensures ComesBackAt(policy, Next(policy, s, Enqueue(id, payload, groupId, now)), id, now)
  {
    BackWhenDue(policy, Next(policy, s, Enqueue(id, payload, groupId, now)), id, now);
  }

  /** The retry count is the number of deliveries. */
  lemma {:induction false} RetriesAreDeliveries(policy: Policy, s: State, events: seq<Event>, id: string)
    requires IsRun(policy, s, events) && NotReused(events, id)
    ensures var cache := After(policy, s, events).queue.cache;
      id in cache ==>
        && id in s.queue.cache
        && cache[id].retryCount == s.queue.cache[id].retryCount + |Deliveries(policy, s, events, id)|
    decreases |events|
  {
    if events != [] {
      var e := events[0];
      if e.Dequeue? {
        var k := FirstReady(s.queue, e.clock, 0);
        assert k < |s.queue.deque| ==> IsReady(s.queue.cache, s.queue.deque[k], e.clock[k]);
      }
      RetriesAreDeliveries(policy, Next(policy, s, e), events[1..], id);
    }
  }

  /** What a message carries never changes. */
  lemma {:induction false} ContentsStay(policy: Policy, s: State, events: seq<Event>, id: string)
    requires IsRun(policy, s, events) && NotReused(events, id) && id in After(policy, s, events).queue.cache
    ensures var m := After(policy, s, events).queue.cache[id];
      && id in s.queue.cache && m.id == s.queue.cache[id].id
      && m.payload == s.queue.cache[id].payload && m.groupId == s.queue.cache[id].groupId
    decreases |events|
  {
    if events != [] {
      ContentsStay(policy, Next(policy, s, events[0]), events[1..], id);
    }
  }

  lemma DeadIsNotDelivered(policy: Policy, s: State, id: string)
    requires Inv(policy, s.queue) && !IsLive(s.queue.cache, id)
    ensures !CanBeDelivered(policy, s, id)
  {
    forall events | IsRun(policy, s, events) && NotReused(events, id)
      ensures Deliveries(policy, s, events, id) == []
    {
      NotLiveIsNotDelivered(policy, s, events, id);
    }
  }

  lemma {:induction false} NotLiveIsNotDelivered(policy: Policy, s: State, events: seq<Event>, id: string)
    requires Inv(policy, s.queue) && !IsLive(s.queue.cache, id) && IsRun(policy, s, events) && NotReused(events, id)
    ensures Deliveries(policy, s, events, id) == []
    decreases |events|
  {
    if events != [] {
      var e := events[0];
      StepKeepsInv(policy, s, e);
      if e.Dequeue? {
        var k := FirstReady(s.queue, e.clock, 0);
        assert k < |s.queue.deque| ==> IsReady(s.queue.cache, s.queue.deque[k], e.clock[k]);
      }
      NotLiveIsNotDelivered(policy, Next(policy, s, e), events[1..], id);
    }
  }

  /** An acknowledged message is never delivered again. */
  lemma AckedIsNotDelivered(policy: Policy, s: State, id: string)
    requires Inv(policy, s.queue)
    ensures !CanBeDelivered(policy, Next(policy, s, Ack(id)), id)
  {
    DeadIsNotDelivered(policy, Next(policy, s, Ack(id)), id);
  }

  lemma NackIsExact(policy: Policy, s: State, id: string, t: int, n: nat)
    requires Inv(policy, s.queue) && id in s.queue.cache && s.queue.cache[id].retryCount == n && s.time <= t
    ensures n < policy.maxRetries ==> ComesBackAt(policy, Next(policy, s, Nack(id, t)), id, t + 10 * PowerOf2(n))
    ensures n >= policy.maxRetries ==> !CanBeDelivered(policy, Next(policy, s, Nack(id, t)), id)
  {
    var next := Next(policy, s, Nack(id, t));
    StepKeepsInv(policy, s, Nack(id, t));
    if n < policy.maxRetries {
      BackWhenDue(policy, next, id, t + 10 * PowerOf2(n));
    } else {
      DeadIsNotDelivered(policy, next, id);
    }
  }

  /**
   * A nack at `t`, after a new message was delivered `n` times in any run, brings it back at exactly `t + 10 * 2^n`, if
   * `n` is below `max_retries`, and otherwise never.
   */
  lemma BackoffIsExact(policy: Policy, s: State, events: seq<Event>, id: string, t: int)
    requires Inv(policy, s.queue) && IsRun(policy, s, events) && NotReused(events, id)
    requires id in s.queue.cache && s.queue.cache[id].retryCount == 0 && s.queue.cache[id].status == Pending
    requires id in After(policy, s, events).queue.cache && After(policy, s, events).time <= t
    ensures var n := |Deliveries(policy, s, events, id)|;
      var next := Next(policy, After(policy, s, events), Nack(id, t));
      && (n < policy.maxRetries ==> ComesBackAt(policy, next, id, t + 10 * PowerOf2(n)))
      && (n >= policy.maxRetries ==> !CanBeDelivered(policy, next, id))
  {
    RunKeepsInv(policy, s, events);
    RetriesAreDeliveries(policy, s, events, id);
    NackIsExact(policy, After(policy, s, events), id, t, |Deliveries(policy, s, events, id)|);
  }
}
