/**
 * The priority queue of one process, run without interleaving (libs/queue/priority/diskcache.py): one index that holds
 * tasks and receipts under keys of their own namespaces, whose least queued key is the task to deliver next.
 */
module PriorityQueue {
  import opened Decimals
  import opened Texts
  import opened QueueKeys
  import opened QueueProtocol

  /** An entry of the single index; the namespace prefix of its key tells which kind it is. */
  datatype Entry = Queued(value: Value) | Processing(receipt: Receipt)

  datatype Message = Message(id: string, data: string, metadata: string)

  const WEEK := 7 * 24 * 3600

  // ----- The index as a store

  /**
   * Keys of tasks and of receipts have their namespaces, so filtering by prefix finds exactly the entries of a kind.
   */
  predicate WellKeyed(cache: map<string, Entry>) {
    forall k :: k in cache ==>
      match cache[k]
      case Queued(_) => QUEUE_NAMESPACE <= k
      case Processing(r) => PROCESSING_NAMESPACE <= k && QUEUE_NAMESPACE <= r.queueKey
  }

  function TasksIn(cache: map<string, Entry>): map<string, Value> {
    map k | k in cache && cache[k].Queued? :: cache[k].value
  }

  function ReceiptsIn(cache: map<string, Entry>): map<string, Receipt> {
    map k | k in cache && cache[k].Processing? :: cache[k].receipt
  }

  function StoreOf(cache: map<string, Entry>): Store {
    Store(TasksIn(cache), ReceiptsIn(cache))
  }

  /** No task is both queued and in flight, or in flight twice. */
  predicate Separate(st: Store) {
    && (forall i :: i in st.processing ==> st.processing[i].queueKey !in st.queued)
    && (forall i, j :: i in st.processing && j in st.processing && i != j ==>
          st.processing[i].queueKey != st.processing[j].queueKey)
  }

  lemma PrefixesDiffer(k: string)
    ensures !(QUEUE_NAMESPACE <= k && PROCESSING_NAMESPACE <= k)
  {
    assert QUEUE_NAMESPACE <= k ==> k[0] == 't';
    assert PROCESSING_NAMESPACE <= k ==> k[0] == 'p';
  }

  lemma KindOfKey(cache: map<string, Entry>, k: string)
    requires WellKeyed(cache) && k in cache
    ensures QUEUE_NAMESPACE <= k <==> cache[k].Queued?
    ensures PROCESSING_NAMESPACE <= k <==> cache[k].Processing?
  {
    PrefixesDiffer(k);
  }

  lemma PutTask(cache: map<string, Entry>, k: string, value: Value)
    requires WellKeyed(cache) && QUEUE_NAMESPACE <= k
    ensures WellKeyed(cache[k := Queued(value)])
    ensures StoreOf(cache[k := Queued(value)]) == Queue(StoreOf(cache), k, value)
  {
    if k in cache {
      KindOfKey(cache, k);
    }
  }

  lemma DropReceipt(cache: map<string, Entry>, k: string)
    requires WellKeyed(cache) && PROCESSING_NAMESPACE <= k
    ensures WellKeyed(cache - {k}) && StoreOf(cache - {k}) == Forget(StoreOf(cache), k)
  {
    if k in cache {
      KindOfKey(cache, k);
    }
  }

  lemma DropTask(cache: map<string, Entry>, k: string)
    requires WellKeyed(cache) && QUEUE_NAMESPACE <= k
    ensures WellKeyed(cache - {k})
    ensures StoreOf(cache - {k}) == StoreOf(cache).(queued := StoreOf(cache).queued - {k})
  {
    if k in cache {
      KindOfKey(cache, k);
    }
  }

  lemma PutReceipt(cache: map<string, Entry>, k: string, r: Receipt)
    requires WellKeyed(cache) && PROCESSING_NAMESPACE <= k && QUEUE_NAMESPACE <= r.queueKey
    ensures WellKeyed(cache[k := Processing(r)])
    ensures StoreOf(cache[k := Processing(r)]) == StoreOf(cache).(processing := StoreOf(cache).processing[k := r])
  {
    if k in cache {
      KindOfKey(cache, k);
    }
  }

  // ----- Sorted iteration

  predicate IsLeast(k: string, keys: set<string>) {
    k in keys && forall j :: j in keys && j != k ==> Lt(k, j)
  }

  lemma {:induction false} LeastExists(keys: set<string>) returns (k: string)
    requires keys != {}
    ensures IsLeast(k, keys)
    decreases keys
  {
    var some :| some in keys;
    var rest := keys - {some};
    assert keys == rest + {some};
    if rest == {} {
      k := some;
    } else {
      var least := LeastExists(rest);
      LtTotal(some, least);
      k := if Lt(least, some) then least else some;
      forall j | j in keys && j != k
        ensures Lt(k, j)
      {
        if k == some && j != least {
          LtTransitive(k, least, j);
        }
      }
    }
  }

  lemma LeastBelow(k: string, keys: set<string>, j: string)
    requires IsLeast(k, keys) && j in keys && j != k
    ensures Lt(k, j)
  {
  }

  predicate Ascending(keys: seq<string>) {
    forall i, j :: 0 <= i < j < |keys| ==> Lt(keys[i], keys[j])
  }

  /** Iterating over the index, in sorted order as the comment in the source has it. */
  method SortedKeys(keys: set<string>) returns (order: seq<string>)
    ensures Ascending(order) && forall k :: k in order <==> k in keys
  {
    order := [];
    var rest := keys;
    while rest != {}
      invariant rest <= keys && Ascending(order)
      invariant forall k :: k in keys <==> k in order || k in rest
      invariant forall i, k :: 0 <= i < |order| && k in rest ==> Lt(order[i], k)
      decreases rest
    {
      ghost var least := LeastExists(rest);
      var k :| k in rest && IsLeast(k, rest);
      forall j | j in rest - {k}
        ensures Lt(k, j)
      {
        LeastBelow(k, rest, j);
      }
      order, rest := order + [k], rest - {k};
    }
  }

  // ----- What recovery and cleanup leave

  predicate Returned(st: Store, now: int, todo: set<string>, i: string) {
    i in st.processing && st.processing[i].timeout < now && i !in todo
  }

  /**
   * From `st` to `after` the expired receipts outside `todo` returned to the queue, each under its original key and
   * value, and nothing else changed.
   */
  ghost predicate IsRecovered(st: Store, now: int, todo: set<string>, after: Store) {
    && (forall i :: i in after.processing <==> i in st.processing && !Returned(st, now, todo, i))
    && (forall i :: i in after.processing ==> after.processing[i] == st.processing[i])
    && (forall k :: k in st.queued ==> k in after.queued && after.queued[k] == st.queued[k])
    && (forall i :: Returned(st, now, todo, i) ==>
          && st.processing[i].queueKey in after.queued
          && after.queued[st.processing[i].queueKey] == st.processing[i].value)
    && (forall k :: k in after.queued ==>
          k in st.queued || exists i :: Returned(st, now, todo, i) && st.processing[i].queueKey == k)
  }

  function CleanedUp(st: Store, cutoff: int): Store {
    Store(map k | k in st.queued && st.queued[k].enqueuedAt >= cutoff :: st.queued[k],
          map i | i in st.processing && st.processing[i].startedAt >= cutoff :: st.processing[i])
  }

  lemma ForgetKeepsSeparate(st: Store, id: string)
    requires Separate(st)
    ensures Separate(Forget(st, id))
  {
  }

  lemma ReturnKeepsSeparate(st: Store, id: string)
    requires Separate(st) && id in st.processing
    ensures Separate(Queue(Forget(st, id), st.processing[id].queueKey, st.processing[id].value))
  {
  }

  lemma DeliverKeepsSeparate(st: Store, key: string, id: string, startedAt: int, timeout: int)
    requires Separate(st) && id !in st.processing
    ensures Separate(Deliver(st, key, id, startedAt, timeout))
  {
  }

  lemma ReturnOne(st: Store, now: int, todo: set<string>, mid: Store, id: string)
    requires Separate(st) && IsRecovered(st, now, todo, mid) && id in todo && id in mid.processing
    requires mid.processing[id].timeout < now
    ensures IsRecovered(st, now, todo - {id},
                        Queue(Forget(mid, id), mid.processing[id].queueKey, mid.processing[id].value))
  {
    var after := Queue(Forget(mid, id), mid.processing[id].queueKey, mid.processing[id].value);
    assert Returned(st, now, todo - {id}, id);
    forall i
      ensures Returned(st, now, todo - {id}, i) <==> Returned(st, now, todo, i) || i == id
    {
    }
  }

  lemma SkipOne(st: Store, now: int, todo: set<string>, mid: Store, id: string)
    requires IsRecovered(st, now, todo, mid) && id in st.processing && st.processing[id].timeout >= now
    ensures IsRecovered(st, now, todo - {id}, mid)
  {
    forall i
      ensures Returned(st, now, todo - {id}, i) <==> Returned(st, now, todo, i)
    {
    }
  }

  lemma DropOld(cache: map<string, Entry>, cutoff: int, tasks: set<string>, receipts: set<string>)
    requires WellKeyed(cache)
    requires forall k :: k in tasks <==>
      k in cache && QUEUE_NAMESPACE <= k && cache[k].Queued? && cache[k].value.enqueuedAt < cutoff
    requires forall k :: k in receipts <==>
      k in cache && PROCESSING_NAMESPACE <= k && cache[k].Processing? && cache[k].receipt.startedAt < cutoff
    ensures StoreOf(cache - tasks - receipts) == CleanedUp(StoreOf(cache), cutoff)
  {
    var left := cache - tasks - receipts;
    forall k | k in cache
      ensures k in left <==>
        if cache[k].Queued? then cache[k].value.enqueuedAt >= cutoff else cache[k].receipt.startedAt >= cutoff
    {
    }
    assert TasksIn(left) == CleanedUp(StoreOf(cache), cutoff).queued;
    assert ReceiptsIn(left) == CleanedUp(StoreOf(cache), cutoff).processing;
  }

  /** The task of the receipt is queued again, under its key and value. */
  predicate BackInQueue(before: Store, i: string, after: Store)
    requires i in before.processing
  {
    var r := before.processing[i];
    i !in after.processing && r.queueKey in after.queued && after.queued[r.queueKey] == r.value
  }

  predicate StillInFlight(before: Store, i: string, after: Store)
    requires i in before.processing
  {
    i in after.processing && after.processing[i] == before.processing[i]
  }

  lemma DeliverKeepsFlights(before: Store, st: Store, key: string, id: string, startedAt: int, timeout: int)
    requires id !in st.processing
    ensures forall i :: i in before.processing && StillInFlight(before, i, st) ==>
      StillInFlight(before, i, Deliver(st, key, id, startedAt, timeout))
  {
  }

  /** The queue; ids, uids and clock readings are handed in. */
  class DiskcacheQueue {
    var cache: map<string, Entry>

    ghost predicate Valid()
      reads this
    {
      WellKeyed(cache) && Separate(StoreOf(cache))
    }

    ghost function Contents(): Store
      reads this
    {
      StoreOf(cache)
    }

    constructor ()
      ensures Valid() && Contents() == Store(map[], map[])
    {
      cache := map[];
    }

    method Push(data: string, priority: nat, group: string, metadata: string, stamp: nat, uid: string, enqueuedAt: int)
      requires Valid()
      requires var key := MakeQueueKey(Place(priority, stamp, uid));
        key !in Contents().queued && forall i :: i in Contents().processing ==> Contents().processing[i].queueKey != key
      modifies this
      ensures Valid()
      ensures Contents() == Queue(old(Contents()), MakeQueueKey(Place(priority, stamp, uid)),
                                  Value(data, group, metadata, enqueuedAt, priority))
    {
      var key := MakeQueueKey(Place(priority, stamp, uid));
      var value := Value(data, group, metadata, enqueuedAt, priority);
      PutTask(cache, key, value);
      assert QUEUE_NAMESPACE <= key;
      cache := cache[key := Queued(value)];
    }

    /** The first key of the queue namespace in the iteration, which is the least one. */
    method GetFirstQueueKey() returns (key: Option<string>)
      requires Valid()
      ensures key == None <==> Contents().queued == map[]
      ensures key.Some? ==> IsLeast(key.value, Contents().queued.Keys)
    {
      var keys := SortedKeys(cache.Keys);
      for n := 0 to |keys|
        invariant forall i :: 0 <= i < n ==> !(QUEUE_NAMESPACE <= keys[i])
      {
        if QUEUE_NAMESPACE <= keys[n] {
          key := Some(keys[n]);
          FirstIsLeast(cache, keys, n);
          return;
        }
      }
      NoneIsQueued(cache, keys);
      key := None;
    }

    /** `leasedAt` is the clock reading for the timeout, taken after the one for `startedAt`. */
    method PopByKey(key: string, msgId: string, startedAt: int, leasedAt: int, visibilityTimeout: int)
      returns (message: Option<Message>)
      requires Valid() && QUEUE_NAMESPACE <= key && MakeProcessingKey(msgId) !in Contents().processing
      modifies this
      ensures Valid()
      ensures Contents()
           == Deliver(old(Contents()), key, MakeProcessingKey(msgId), startedAt, leasedAt + visibilityTimeout)
      ensures key in old(Contents()).queued ==>
        && key !in Contents().queued && MakeProcessingKey(msgId) in Contents().processing
        && Contents().processing[MakeProcessingKey(msgId)]
             == Receipt(key, old(Contents()).queued[key], startedAt, leasedAt + visibilityTimeout)
      ensures message == if key in old(Contents()).queued
                         then Some(Message(msgId, old(Contents()).queued[key].data,
                                           old(Contents()).queued[key].metadata))
                         else None
    {
      if key !in cache {
        return None;
      }
      KindOfKey(cache, key);
      var value, timeout := cache[key].value, leasedAt + visibilityTimeout;
      DeliverKeepsSeparate(Contents(), key, MakeProcessingKey(msgId), startedAt, timeout);
      DropTask(cache, key);
      cache := cache - {key};
      PutReceipt(cache, MakeProcessingKey(msgId), Receipt(key, value, startedAt, timeout));
      cache := cache[MakeProcessingKey(msgId) := Processing(Receipt(key, value, startedAt, timeout))];
      message := Some(Message(msgId, value.data, value.metadata));
    }

    /** The processing entry `k` returns to the queue under its original key. */
    method Return(k: string)
      requires Valid() && k in Contents().processing
      modifies this
      ensures Valid()
      ensures var r := old(Contents()).processing[k];
              Contents() == Queue(Forget(old(Contents()), k), r.queueKey, r.value)
    {
      KindOfKey(cache, k);
      ReturnKeepsSeparate(Contents(), k);
      var info := cache[k].receipt;
      DropReceipt(cache, k);
      cache := cache - {k};
      PutTask(cache, info.queueKey, info.value);
      cache := cache[info.queueKey := Queued(info.value)];
    }

    method RecoverZombies(now: int)
      requires Valid()
      modifies this
      ensures Valid() && IsRecovered(old(Contents()), now, {}, Contents())
      ensures forall i :: i in old(Contents()).processing ==>
        if now > old(Contents()).processing[i].timeout then BackInQueue(old(Contents()), i, Contents())
        else StillInFlight(old(Contents()), i, Contents())
    {
      var todo := set k | k in cache && PROCESSING_NAMESPACE <= k;
      ReceiptKeys(cache);
      while todo != {}
        invariant Valid() && IsRecovered(old(Contents()), now, todo, Contents())
        invariant todo <= Contents().processing.Keys && todo <= old(Contents()).processing.Keys
        decreases todo
      {
        var k :| k in todo;
        KindOfKey(cache, k);
        if now > cache[k].receipt.timeout {
          ReturnOne(old(Contents()), now, todo, Contents(), k);
          Return(k);
        } else {
          SkipOne(old(Contents()), now, todo, Contents(), k);
        }
        todo := todo - {k};
      }
    }

    /** Recovery first, then the least queued key is delivered; None exactly when nothing is queued then. */
    method Pop(msgId: string, now: int, startedAt: int, leasedAt: int, visibilityTimeout: int)
      returns (message: Option<Message>, ghost recovered: Store, ghost key: string)
      requires Valid() && MakeProcessingKey(msgId) !in Contents().processing
      modifies this
      ensures Valid() && IsRecovered(old(Contents()), now, {}, recovered)
      ensures message == None <==> recovered.queued == map[]
      ensures message == None ==> Contents() == recovered
      ensures message.Some? ==>
        && IsLeast(key, recovered.queued.Keys)
        && message.value == Message(msgId, recovered.queued[key].data, recovered.queued[key].metadata)
        && Contents() == Deliver(recovered, key, MakeProcessingKey(msgId), startedAt, leasedAt + visibilityTimeout)
      ensures forall i :: i in old(Contents()).processing ==>
        if now > old(Contents()).processing[i].timeout then BackInQueue(old(Contents()), i, recovered)
        else StillInFlight(old(Contents()), i, Contents())
    {
      RecoverZombies(now);
      recovered, key := Contents(), "";
      var first := GetFirstQueueKey();
      match first
      case None =>
        message := None;
      case Some(k) =>
        KindOfKey(cache, k);
        key := k;
        DeliverKeepsFlights(old(Contents()), recovered, k, MakeProcessingKey(msgId), startedAt,
                            leasedAt + visibilityTimeout);
        message := PopByKey(k, msgId, startedAt, leasedAt, visibilityTimeout);
    }

    method Ack(msgId: string)
      requires Valid()
      modifies this
      ensures Valid() && Contents() == Forget(old(Contents()), MakeProcessingKey(msgId))
    {
      var processingKey := MakeProcessingKey(msgId);
      ForgetKeepsSeparate(Contents(), processingKey);
      DropReceipt(cache, processingKey);
      if processingKey in cache {
        cache := cache - {processingKey};
      } else {
        assert cache - {processingKey} == cache;
      }
    }

    /** Hands the task back; a message id that is not in flight changes nothing. */
    method Nack(msgId: string)
      requires Valid()
      modifies this
      ensures Valid()
      ensures var k := MakeProcessingKey(msgId);
        if k in old(Contents()).processing then
          var r := old(Contents()).processing[k];
          Contents() == Queue(Forget(old(Contents()), k), r.queueKey, r.value)
        else Contents() == old(Contents())
    {
      var processingKey := MakeProcessingKey(msgId);
      if processingKey in cache {
        KindOfKey(cache, processingKey);
        Return(processingKey);
      }
    }

    /** Drops what was queued or delivered more than a week ago, and nothing else. */
    method Cleanup(now: int)
      requires Valid()
      modifies this
      ensures Valid() && Contents() == CleanedUp(old(Contents()), now - WEEK)
      ensures forall k :: k in Contents().queued <==>
        k in old(Contents()).queued && now - old(Contents()).queued[k].enqueuedAt <= 7 * 24 * 3600
      ensures forall k :: k in Contents().queued ==> Contents().queued[k] == old(Contents()).queued[k]
      ensures forall i :: i in Contents().processing <==>
        i in old(Contents()).processing && now - old(Contents()).processing[i].startedAt <= 7 * 24 * 3600
      ensures forall i :: i in Contents().processing ==> Contents().processing[i] == old(Contents()).processing[i]
    {
      var cutoff := now - WEEK;
      var toDelete :=
        set k | k in cache && QUEUE_NAMESPACE <= k && cache[k].Queued? && cache[k].value.enqueuedAt < cutoff;
      var processingToDelete :=
        set k | k in cache && PROCESSING_NAMESPACE <= k && cache[k].Processing? && cache[k].receipt.startedAt < cutoff;
      DropOld(cache, cutoff, toDelete, processingToDelete);
      cache := cache - toDelete - processingToDelete;
    }
  }

  lemma ReceiptKeys(cache: map<string, Entry>)
    requires WellKeyed(cache)
    ensures forall k :: k in ReceiptsIn(cache) <==> k in cache && PROCESSING_NAMESPACE <= k
  {
    forall k | k in cache
      ensures PROCESSING_NAMESPACE <= k <==> cache[k].Processing?
    {
      KindOfKey(cache, k);
    }
  }

  lemma FirstIsLeast(cache: map<string, Entry>, keys: seq<string>, n: nat)
    requires WellKeyed(cache) && Ascending(keys) && (forall k :: k in keys <==> k in cache.Keys)
    requires n < |keys| && QUEUE_NAMESPACE <= keys[n]
    requires forall i :: 0 <= i < n ==> !(QUEUE_NAMESPACE <= keys[i])
    ensures IsLeast(keys[n], TasksIn(cache).Keys)
  {
    forall k | k in cache
      ensures QUEUE_NAMESPACE <= k <==> cache[k].Queued?
    {
      KindOfKey(cache, k);
    }
    forall j | j in TasksIn(cache) && j != keys[n]
      ensures Lt(keys[n], j)
    {
      var i :| 0 <= i < |keys| && keys[i] == j;
    }
  }

  lemma NoneIsQueued(cache: map<string, Entry>, keys: seq<string>)
    requires WellKeyed(cache) && (forall k :: k in keys <==> k in cache.Keys)
    requires forall i :: 0 <= i < |keys| ==> !(QUEUE_NAMESPACE <= keys[i])
    ensures TasksIn(cache) == map[]
  {
    forall k | k in cache
      ensures !cache[k].Queued?
    {
      KindOfKey(cache, k);
      assert k in keys;
    }
  }

  /** In terms of what keys are made of: the least key has the lowest priority value, then the earliest timestamp. */
  lemma LeastIsFirst(places: set<Place>, first: Place, width: nat)
    requires forall p :: p in places ==> p.priority < Power10(10) && SecondsWidth(p.micros) == width && ':' !in p.uid
    requires first in places && IsLeast(MakeQueueKey(first), set p | p in places :: MakeQueueKey(p))
    ensures forall p :: p in places && p != first ==> Before(first, p)
  {
    forall p | p in places && p != first
      ensures Before(first, p)
    {
      ParseInvertsMake(p);
      ParseInvertsMake(first);
      KeyOrder(first, p);
      assert MakeQueueKey(p) in set q | q in places :: MakeQueueKey(q);
    }
  }
}
