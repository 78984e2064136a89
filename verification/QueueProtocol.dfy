/** The priority queue as a protocol (libs/queue/priority/diskcache.py): any number of processes share one store. */
module QueueProtocol {

  datatype Value = Value(data: string, group: string, metadata: string, enqueuedAt: int, priority: nat)

  /** A processing entry. */
  datatype Receipt = Receipt(queueKey: string, value: Value, startedAt: int, timeout: int)

  /** The shared index, one map for each key prefix. */
  datatype Store = Store(queued: map<string, Value>, processing: map<string, Receipt>)

  datatype Task = Task(key: string, value: Value)

  datatype State = State(
    store: Store,
    limbo: map<string, Task>,      // what a process has popped from processing and not put back yet
    pushed: map<string, Value>,   // every task ever pushed
    gone: set<string>,            // keys of the tasks acknowledged or cleaned up
    issued: set<string>)          // every message id ever issued

  datatype Event =
    | Push(key: string, value: Value)
    | PopByKey(key: string, id: string, startedAt: int, timeout: int)
    | Ack(id: string)
    | Nack(process: string, id: string)                 // the first write of nack
    | Expire(process: string, id: string, now: int)     // the first write of a recovery
    | PutBack(process: string)                          // the second write of either
    | DropQueued(key: string, cutoff: int)
    | DropProcessing(id: string, cutoff: int)

  const EMPTY := State(Store(map[], map[]), map[], map[], {}, {})

  // ----- The writes

  function Queue(st: Store, key: string, value: Value): Store {
    st.(queued := st.queued[key := value])
  }

  function Deliver(st: Store, key: string, id: string, startedAt: int, timeout: int): Store {
    if key in st.queued then
      Store(st.queued - {key}, st.processing[id := Receipt(key, st.queued[key], startedAt, timeout)])
    else st
  }

  function Forget(st: Store, id: string): Store {
    st.(processing := st.processing - {id})
  }

  function Expired(r: Receipt, now: int): bool {
    now > r.timeout
  }

  /** The message ids and queue keys are unique, and a process between two writes does nothing else. */
  predicate Enabled(s: State, e: Event) {
    match e
    case Push(key, _) => key !in s.pushed
    case PopByKey(_, id, _, _) => id !in s.issued
    case Nack(p, _) => p !in s.limbo
    case Expire(p, _, _) => p !in s.limbo
    case PutBack(p) => p in s.limbo
    case _ => true
  }

  /** Popping a receipt into the hands of a process. */
  function TakeBack(s: State, p: string, id: string): State
    requires id in s.store.processing
  {
    var r := s.store.processing[id];
    s.(store := Forget(s.store, id), limbo := s.limbo[p := Task(r.queueKey, r.value)])
  }

  function Finish(s: State, id: string): State
    requires id in s.store.processing
  {
    s.(store := Forget(s.store, id), gone := s.gone + {s.store.processing[id].queueKey})
  }

  function Next(s: State, e: Event): State
    requires Enabled(s, e)
  {
    match e
    case Push(key, value) => s.(store := Queue(s.store, key, value), pushed := s.pushed[key := value])
    case PopByKey(key, id, startedAt, timeout) =>
      s.(store := Deliver(s.store, key, id, startedAt, timeout), issued := s.issued + {id})
    case Ack(id) => if id in s.store.processing then Finish(s, id) else s
    case Nack(p, id) => if id in s.store.processing then TakeBack(s, p, id) else s
    case Expire(p, id, now) =>
      if id in s.store.processing && Expired(s.store.processing[id], now) then TakeBack(s, p, id) else s
    case PutBack(p) =>
      s.(store := Queue(s.store, s.limbo[p].key, s.limbo[p].value), limbo := s.limbo - {p})
    case DropQueued(key, cutoff) =>
      if key in s.store.queued && s.store.queued[key].enqueuedAt < cutoff then
        s.(store := s.store.(queued := s.store.queued - {key}), gone := s.gone + {key})
      else s
    case DropProcessing(id, cutoff) =>
      if id in s.store.processing && s.store.processing[id].startedAt < cutoff then Finish(s, id) else s
  }

  // ----- Where a task is

  predicate Holds(s: State, id: string, k: string) {
    id in s.store.processing && s.store.processing[id].queueKey == k
  }

  ghost predicate InFlight(s: State, k: string) {
    exists id :: Holds(s, id, k)
  }

  ghost predicate InLimbo(s: State, k: string) {
    exists p :: p in s.limbo && s.limbo[p].key == k
  }

  predicate IsTask(s: State, k: string, v: Value) {
    k in s.pushed && s.pushed[k] == v && k !in s.gone
  }

  /** Whatever is somewhere is a pushed task, under its original key and value. */
  ghost predicate OriginalInv(s: State) {
    && (forall k :: k in s.store.queued ==> IsTask(s, k, s.store.queued[k]))
    && (forall id :: id in s.store.processing ==>
          IsTask(s, s.store.processing[id].queueKey, s.store.processing[id].value) && id in s.issued)
    && (forall p :: p in s.limbo ==> IsTask(s, s.limbo[p].key, s.limbo[p].value))
    && s.gone <= s.pushed.Keys
  }

  /** No task is in two places. */
  ghost predicate ExclusiveInv(s: State) {
    && (forall id :: id in s.store.processing ==> s.store.processing[id].queueKey !in s.store.queued)
    && (forall p :: p in s.limbo ==> s.limbo[p].key !in s.store.queued)
    && (forall i, j :: i in s.store.processing && j in s.store.processing && i != j ==>
          s.store.processing[i].queueKey != s.store.processing[j].queueKey)
    && (forall p, q :: p in s.limbo && q in s.limbo && p != q ==> s.limbo[p].key != s.limbo[q].key)
    && (forall id, p :: id in s.store.processing && p in s.limbo ==> s.store.processing[id].queueKey != s.limbo[p].key)
  }

  /** Every pushed task that is not gone is somewhere. */
  ghost predicate CoveredInv(s: State) {
    forall k :: k in s.pushed && k !in s.gone ==> k in s.store.queued || InFlight(s, k) || InLimbo(s, k)
  }

  ghost predicate Inv(s: State) {
    OriginalInv(s) && ExclusiveInv(s) && CoveredInv(s)
  }

  lemma TakeBackKeepsInv(s: State, p: string, id: string)
    requires Inv(s) && p !in s.limbo && id in s.store.processing
    ensures Inv(TakeBack(s, p, id))
  {
    TakeBackKeepsCovered(s, p, id);
    TakeBackKeepsExclusive(s, p, id);
  }

  lemma TakeBackKeepsExclusive(s: State, p: string, id: string)
    requires ExclusiveInv(s) && p !in s.limbo && id in s.store.processing
    ensures ExclusiveInv(TakeBack(s, p, id))
  {
  }

  lemma TakeBackKeepsCovered(s: State, p: string, id: string)
    requires CoveredInv(s) && p !in s.limbo && id in s.store.processing
    ensures CoveredInv(TakeBack(s, p, id))
  {
    var t := TakeBack(s, p, id);
    forall k | k in t.pushed && k !in t.gone
      ensures k in t.store.queued || InFlight(t, k) || InLimbo(t, k)
    {
      if InFlight(s, k) {
        var i :| Holds(s, i, k);
        assert if i == id then t.limbo[p].key == k else Holds(t, i, k);
      } else if InLimbo(s, k) {
        var q :| q in s.limbo && s.limbo[q].key == k;
        assert q in t.limbo && t.limbo[q].key == k;
      }
    }
  }

  lemma FinishKeepsInv(s: State, id: string)
    requires Inv(s) && id in s.store.processing
    ensures Inv(Finish(s, id))
  {
    FinishKeepsCovered(s, id);
  }

  lemma FinishKeepsCovered(s: State, id: string)
    requires CoveredInv(s) && id in s.store.processing
    ensures CoveredInv(Finish(s, id))
  {
    var t := Finish(s, id);
    forall k | k in t.pushed && k !in t.gone
      ensures k in t.store.queued || InFlight(t, k) || InLimbo(t, k)
    {
      if InFlight(s, k) {
        var i :| Holds(s, i, k);
        assert Holds(t, i, k);
      } else if InLimbo(s, k) {
        var q :| q in s.limbo && s.limbo[q].key == k;
        assert q in t.limbo;
      }
    }
  }

  lemma PopKeepsInv(s: State, e: Event)
    requires Inv(s) && e.PopByKey? && Enabled(s, e)
    ensures Inv(Next(s, e))
  {
    PopKeepsCovered(s, e);
    PopKeepsExclusive(s, e);
  }

  lemma PopKeepsExclusive(s: State, e: Event)
    requires OriginalInv(s) && ExclusiveInv(s) && e.PopByKey? && Enabled(s, e)
    ensures ExclusiveInv(Next(s, e))
  {
  }

  lemma PopKeepsCovered(s: State, e: Event)
    requires CoveredInv(s) && OriginalInv(s) && e.PopByKey? && Enabled(s, e)
    ensures CoveredInv(Next(s, e))
  {
    var t := Next(s, e);
    forall k | k in t.pushed && k !in t.gone
      ensures k in t.store.queued || InFlight(t, k) || InLimbo(t, k)
    {
      if k == e.key && k in s.store.queued {
        assert Holds(t, e.id, k);
      } else if InFlight(s, k) {
        var i :| Holds(s, i, k);
        assert Holds(t, i, k);
      } else if InLimbo(s, k) {
        var q :| q in s.limbo && s.limbo[q].key == k;
        assert q in t.limbo;
      }
    }
  }

  lemma PutBackKeepsInv(s: State, p: string)
    requires Inv(s) && p in s.limbo
    ensures Inv(Next(s, PutBack(p)))
  {
    PutBackKeepsCovered(s, p);
    PutBackKeepsExclusive(s, p);
  }

  lemma PutBackKeepsExclusive(s: State, p: string)
    requires ExclusiveInv(s) && p in s.limbo
    ensures ExclusiveInv(Next(s, PutBack(p)))
  {
  }

  lemma PutBackKeepsCovered(s: State, p: string)
    requires CoveredInv(s) && p in s.limbo
    ensures CoveredInv(Next(s, PutBack(p)))
  {
    var t := Next(s, PutBack(p));
    forall k | k in t.pushed && k !in t.gone
      ensures k in t.store.queued || InFlight(t, k) || InLimbo(t, k)
    {
      if InFlight(s, k) {
        var i :| Holds(s, i, k);
        assert Holds(t, i, k);
      } else if InLimbo(s, k) {
        var q :| q in s.limbo && s.limbo[q].key == k;
        assert q == p || q in t.limbo;
      }
    }
  }

  lemma PushKeepsInv(s: State, e: Event)
    requires Inv(s) && e.Push? && Enabled(s, e)
    ensures Inv(Next(s, e))
  {
    var t := Next(s, e);
    forall k | k in s.pushed
      ensures InFlight(s, k) ==> InFlight(t, k)
      ensures InLimbo(s, k) ==> InLimbo(t, k)
    {
      assert forall id :: Holds(s, id, k) ==> Holds(t, id, k);
    }
  }

  lemma DropKeepsInv(s: State, e: Event)
    requires Inv(s) && e.DropQueued?
    ensures Inv(Next(s, e))
  {
    var t := Next(s, e);
    forall k | k in s.pushed
      ensures InFlight(s, k) ==> InFlight(t, k)
      ensures InLimbo(s, k) ==> InLimbo(t, k)
    {
      assert forall id :: Holds(s, id, k) ==> Holds(t, id, k);
    }
  }

  lemma StepKeepsInv(s: State, e: Event)
    requires Inv(s) && Enabled(s, e)
    ensures Inv(Next(s, e))
  {
    match e
    case Push(_, _) => PushKeepsInv(s, e);
    case PopByKey(_, _, _, _) => PopKeepsInv(s, e);
    case PutBack(p) => PutBackKeepsInv(s, p);
    case DropQueued(_, _) => DropKeepsInv(s, e);
    case Ack(id) => if id in s.store.processing { FinishKeepsInv(s, id); }
    case DropProcessing(id, _) => if id in s.store.processing { FinishKeepsInv(s, id); }
    case Nack(p, id) => if id in s.store.processing { TakeBackKeepsInv(s, p, id); }
    case Expire(p, id, _) => if id in s.store.processing { TakeBackKeepsInv(s, p, id); }
  }

  // ----- Runs

  ghost predicate IsRun(s: State, events: seq<Event>)
    decreases |events|
  {
    events == [] || (Enabled(s, events[0]) && IsRun(Next(s, events[0]), events[1..]))
  }

  ghost function After(s: State, events: seq<Event>): State
    requires IsRun(s, events)
    decreases |events|
  {
    if events == [] then s else After(Next(s, events[0]), events[1..])
  }

  lemma {:induction false} RunKeepsInv(s: State, events: seq<Event>)
    requires Inv(s) && IsRun(s, events)
    ensures Inv(After(s, events))
    decreases |events|
  {
    if events != [] {
      StepKeepsInv(s, events[0]);
      RunKeepsInv(Next(s, events[0]), events[1..]);
    }
  }

  ghost predicate ExactlyOne(a: bool, b: bool, c: bool) {
    (a && !b && !c) || (!a && b && !c) || (!a && !b && c)
  }

  /**
   * In every interleaving, a pushed task that is neither acknowledged nor cleaned up is in exactly one of queued, in
   * flight and in the hands of one process, under its original key and value and with at most one receipt; and a task
   * that is gone is nowhere.
   */
  lemma TasksAreConserved(events: seq<Event>, k: string)
    requires IsRun(EMPTY, events) && k in After(EMPTY, events).pushed
    ensures
      var s := After(EMPTY, events);
      && (k !in s.gone ==> ExactlyOne(k in s.store.queued, InFlight(s, k), InLimbo(s, k)))
      && (k in s.gone ==> k !in s.store.queued && !InFlight(s, k) && !InLimbo(s, k))
      && (k in s.store.queued ==> s.store.queued[k] == s.pushed[k])
      && (forall id :: Holds(s, id, k) ==> s.store.processing[id].value == s.pushed[k])
      && (forall i, j :: Holds(s, i, k) && Holds(s, j, k) ==> i == j)
      && (forall p :: p in s.limbo && s.limbo[p].key == k ==> s.limbo[p].value == s.pushed[k])
  {
    assert Inv(EMPTY);
    RunKeepsInv(EMPTY, events);
  }

  // ----- Stale receipts

  /** A message id that was issued and is no longer in the store never comes back. */
  lemma {:induction false} StaleStaysStale(s: State, events: seq<Event>, id: string)
    requires IsRun(s, events) && id in s.issued && id !in s.store.processing
    ensures id in After(s, events).issued && id !in After(s, events).store.processing
    decreases |events|
  {
    if events != [] {
      StaleStaysStale(Next(s, events[0]), events[1..], id);
    }
  }

  /** Once its receipt was acknowledged, handed back or expired, a message id changes nothing any more. */
  lemma StaleReceiptChangesNothing(s: State, events: seq<Event>, id: string, p: string, now: int)
    requires IsRun(s, events) && id in s.issued && id !in s.store.processing
    ensures
      var t := After(s, events);
      && Next(t, Ack(id)) == t
      && (p !in t.limbo ==> Next(t, Nack(p, id)) == t && Next(t, Expire(p, id, now)) == t)
  {
    StaleStaysStale(s, events, id);
  }

  // ----- When a task in flight is taken back

  /** The event ends the flight of the receipt: acknowledged, handed back, past its timeout, or cleaned up. */
  predicate Ends(e: Event, id: string, r: Receipt) {
    || e == Ack(id)
    || (e.Nack? && e.id == id)
    || (e.Expire? && e.id == id && e.now > r.timeout)
    || (e.DropProcessing? && e.id == id && r.startedAt < e.cutoff)
  }

  lemma FlightStep(s: State, e: Event, id: string)
    requires Inv(s) && Enabled(s, e) && id in s.store.processing
    ensures id in Next(s, e).store.processing <==> !Ends(e, id, s.store.processing[id])
    ensures id in Next(s, e).store.processing ==> Next(s, e).store.processing[id] == s.store.processing[id]
  {
  }

  /**
   * In every interleaving a task stays in flight, under its receipt, exactly until it is acknowledged, handed back,
   * recovered after its timeout has passed, or cleaned up for its age.
   */
  lemma {:induction false} FlightLasts(s: State, events: seq<Event>, id: string)
    requires Inv(s) && IsRun(s, events) && id in s.store.processing
    ensures id in After(s, events).store.processing <==>
      forall i :: 0 <= i < |events| ==> !Ends(events[i], id, s.store.processing[id])
    ensures id in After(s, events).store.processing ==>
      After(s, events).store.processing[id] == s.store.processing[id]
    decreases |events|
  {
    if events != [] {
      var next, rest := Next(s, events[0]), events[1..];
      FlightStep(s, events[0], id);
      StepKeepsInv(s, events[0]);
      if id in next.store.processing {
        FlightLasts(next, rest, id);
        assert forall i :: 0 < i < |events| ==> events[i] == rest[i - 1];
      } else {
        StaleStaysStale(next, rest, id);
      }
    }
  }

  /** A popped task is in flight under its key, its value, and the times given. */
  lemma PopStartsFlight(s: State, k: string, id: string, startedAt: int, timeout: int)
    requires Enabled(s, PopByKey(k, id, startedAt, timeout)) && k in s.store.queued
    ensures var t := Next(s, PopByKey(k, id, startedAt, timeout)).store;
      && k !in t.queued && id in t.processing
      && t.processing[id].queueKey == k && t.processing[id].value == s.store.queued[k]
      && t.processing[id].startedAt == startedAt && t.processing[id].timeout == timeout
  {
  }

  /** A task is nowhere in the store or in anybody's hands. */
  ghost predicate Nowhere(s: State, k: string) {
    k !in s.store.queued && !InFlight(s, k) && !InLimbo(s, k)
  }

  lemma {:induction false} GoneStaysGone(s: State, events: seq<Event>, k: string)
    requires Inv(s) && IsRun(s, events) && k in s.gone
    ensures k in After(s, events).gone && Nowhere(After(s, events), k)
    decreases |events|
  {
    if events != [] {
      StepKeepsInv(s, events[0]);
      GoneStaysGone(Next(s, events[0]), events[1..], k);
    }
  }

  /** Once a task in flight is acknowledged, no run brings it back. */
  lemma AckedNeverReturns(s: State, id: string, events: seq<Event>)
    requires Inv(s) && id in s.store.processing && IsRun(Next(s, Ack(id)), events)
    ensures Nowhere(After(Next(s, Ack(id)), events), s.store.processing[id].queueKey)
  {
    StepKeepsInv(s, Ack(id));
    GoneStaysGone(Next(s, Ack(id)), events, s.store.processing[id].queueKey);
  }

  // ----- Tasks come back

  /** Popping a task and handing it back, in the two writes of a nack, restores the store: it regains its place. */
  lemma HandingBackUndoesDelivery(s: State, k: string, id: string, p: string, startedAt: int, timeout: int)
    requires Inv(s) && k in s.store.queued && id !in s.issued && p !in s.limbo
    ensures var events := [PopByKey(k, id, startedAt, timeout), Nack(p, id), PutBack(p)];
      IsRun(s, events) && After(s, events).store == s.store
  {
    var pop, nack, back := PopByKey(k, id, startedAt, timeout), Nack(p, id), PutBack(p);
    var held := Next(Next(s, pop), nack);
    assert (s.store.queued - {k})[k := s.store.queued[k]] == s.store.queued;
    assert s.store.processing[id := Receipt(k, s.store.queued[k], startedAt, timeout)] - {id} == s.store.processing;
    OneStep(held, back);
    assert [nack, back][1..] == [back] && [pop, nack, back][1..] == [nack, back];
  }

  /** The event takes the task out of the queue. */
  predicate Takes(e: Event, k: string, v: Value) {
    (e.PopByKey? && e.key == k) || (e.DropQueued? && e.key == k && v.enqueuedAt < e.cutoff)
  }

  lemma QueueStep(s: State, e: Event, k: string)
    requires Inv(s) && Enabled(s, e) && k in s.store.queued
    ensures k in Next(s, e).store.queued <==> !Takes(e, k, s.store.queued[k])
    ensures k in Next(s, e).store.queued ==> Next(s, e).store.queued[k] == s.store.queued[k]
  {
  }

  /**
   * A `pop` reads the least key and pops it in a second step. Between the two, a queued task stays queued, under its
   * value, unless another process pops that very key or cleans it up: only then can the second step come up empty.
   */
  lemma {:induction false} StaysQueued(s: State, events: seq<Event>, k: string)
    requires Inv(s) && IsRun(s, events) && k in s.store.queued
    requires forall i :: 0 <= i < |events| ==> !Takes(events[i], k, s.store.queued[k])
    ensures k in After(s, events).store.queued && After(s, events).store.queued[k] == s.store.queued[k]
    decreases |events|
  {
    if events != [] {
      QueueStep(s, events[0], k);
      StepKeepsInv(s, events[0]);
      StaysQueued(Next(s, events[0]), events[1..], k);
    }
  }

  /** And it can: with two tasks queued, another process pops the least key first, and the other task is still there. */
  lemma PopComesUpEmpty(s: State, k: string, other: string, id: string, startedAt: int, timeout: int)
    requires k in s.store.queued && other in s.store.queued && k != other && id !in s.issued
    ensures var e := PopByKey(k, id, startedAt, timeout);
      IsRun(s, [e]) && k !in After(s, [e]).store.queued && other in After(s, [e]).store.queued
  {
    OneStep(s, PopByKey(k, id, startedAt, timeout));
  }

  /** From every reachable state a task that is not gone can be queued again by at most two writes. */
  lemma TaskCanReturn(s: State, k: string, p: string) returns (events: seq<Event>)
    requires Inv(s) && k in s.pushed && k !in s.gone && p !in s.limbo
    ensures |events| <= 2 && IsRun(s, events)
    ensures forall i :: 0 <= i < |events| ==> events[i].Expire? || events[i].PutBack?
    ensures k in After(s, events).store.queued && After(s, events).store.queued[k] == s.pushed[k]
  {
    if k in s.store.queued {
      events := [];
    } else if InLimbo(s, k) {
      var q :| q in s.limbo && s.limbo[q].key == k;
      events := [PutBack(q)];
      OneStep(s, PutBack(q));
    } else {
      var id :| Holds(s, id, k);
      var expire := Expire(p, id, s.store.processing[id].timeout + 1);
      events := [expire, PutBack(p)];
      assert events[1..] == [PutBack(p)];
      OneStep(Next(s, expire), PutBack(p));
    }
  }

  lemma OneStep(s: State, e: Event)
    requires Enabled(s, e)
    ensures IsRun(s, [e]) && After(s, [e]) == Next(s, e)
  {
    assert [e][1..] == [];
  }
}
