/** The lazily filled connection pool shared by concurrent lease sessions (libs/database/pool/queue.py). */
module ConnectionPool {
  type Session = nat
  type Connection = nat

  /** Where a session stands in `lease`; the states from Checking to Releasing are inside `with self._lock`. */
  datatype Pc =
    | Starting    // about to try a non-blocking get
    | AtLock      // found the queue empty, waits for the lock
    | Checking    // about to compare the size with the maximum
    | Connecting  // runs the connector
    | Connected   // has a new connection, not counted yet
    | Blocking    // waits for the queue, holding the lock
    | Releasing   // has a connection, about to release the lock
    | Leasing     // yielded the connection to its caller
    | Done

  datatype Lock = Free | HeldBy(session: Session)

  datatype State = State(
    idle: seq<Connection>,               // the queue
    currentSize: int,
    lock: Lock,
    pcs: map<Session, Pc>,
    clients: map<Session, Connection>,   // the local variable `client` of each session that has one
    created: set<Connection>,            // every connection the connector ever returned
    closed: set<Connection>)             // connections closed by the queue.Full branch

  datatype Event =
    | Begin(s: Session)
    | TryGet(s: Session)
    | Acquire(s: Session)
    | Check(s: Session)
    | Connect(s: Session, c: Connection)
    | ConnectFails(s: Session)
    | Count(s: Session)
    | Unblock(s: Session)
    | Unlock(s: Session)
    | Return(s: Session)
    | CloseAll

  const EMPTY := State([], 0, Free, map[], map[], {}, {})

  predicate At(st: State, s: Session, pc: Pc) {
    s in st.pcs && st.pcs[s] == pc
  }

  /** The connections leased out; one that is not counted yet is still being created. */
  function Leased(st: State): int {
    |st.clients| - if st.lock.HeldBy? && At(st, st.lock.session, Connected) then 1 else 0
  }

  predicate Enabled(st: State, e: Event) {
    match e
    case Begin(s) => s !in st.pcs
    case TryGet(s) => At(st, s, Starting)
    case Acquire(s) => At(st, s, AtLock) && st.lock == Free
    case Check(s) => At(st, s, Checking)
    case Connect(s, c) => At(st, s, Connecting) && c !in st.created
    case ConnectFails(s) => At(st, s, Connecting)
    case Count(s) => At(st, s, Connected)
    case Unblock(s) => At(st, s, Blocking) && st.idle != []
    case Unlock(s) => At(st, s, Releasing)
    case Return(s) => At(st, s, Leasing) && s in st.clients
    case CloseAll => forall s :: s in st.pcs ==> st.pcs[s] == Done
  }

  function Move(st: State, s: Session, pc: Pc): State {
    st.(pcs := st.pcs[s := pc])
  }

  function Take(st: State, s: Session, pc: Pc): State
    requires st.idle != []
  {
    Move(st, s, pc).(idle := st.idle[1..], clients := st.clients[s := st.idle[0]])
  }

  /** `close_all`. */
  function Closed(st: State): State {
    st.(idle := [], currentSize := 0)
  }

  function Next(maxsize: nat, st: State, e: Event): State
    requires Enabled(st, e)
  {
    match e
    case Begin(s) => Move(st, s, Starting)
    case TryGet(s) => if st.idle != [] then Take(st, s, Leasing) else Move(st, s, AtLock)
    case Acquire(s) => Move(st, s, Checking).(lock := HeldBy(s))
    case Check(s) => Move(st, s, if st.currentSize < maxsize then Connecting else Blocking)
    case Connect(s, c) => Move(st, s, Connected).(clients := st.clients[s := c], created := st.created + {c})
    case ConnectFails(s) => Move(st, s, Done).(lock := Free)
    case Count(s) => Move(st, s, Releasing).(currentSize := st.currentSize + 1)
    case Unblock(s) => Take(st, s, Releasing)
    case Unlock(s) => Move(st, s, Leasing).(lock := Free)
    case Return(s) =>
      var left := Move(st, s, Done).(clients := st.clients - {s});
      if |st.idle| < maxsize then left.(idle := st.idle + [st.clients[s]])
      else left.(closed := st.closed + {st.clients[s]})
    case CloseAll => Closed(st)
  }

  predicate InLock(pc: Pc) {
    pc in {Checking, Connecting, Connected, Blocking, Releasing}
  }

  predicate HasClient(pc: Pc) {
    pc in {Connected, Releasing, Leasing}
  }

  /** Only the lock holder is inside the locked region. */
  ghost predicate LockInv(st: State) {
    && (forall s :: s in st.pcs && InLock(st.pcs[s]) ==> st.lock == HeldBy(s))
    && (st.lock.HeldBy? ==> st.lock.session in st.pcs && InLock(st.pcs[st.lock.session]))
    && (forall s :: s in st.clients <==> s in st.pcs && HasClient(st.pcs[s]))
  }

  /** Idle and leased connections make up the pool's size, which stays within the maximum. */
  ghost predicate SizeInv(maxsize: nat, st: State) {
    && st.currentSize == |st.idle| + Leased(st)
    && st.currentSize <= maxsize
    && (forall s :: s in st.pcs && st.pcs[s] in {Connecting, Connected} ==> st.currentSize < maxsize)
    && (forall s :: s in st.pcs && st.pcs[s] == Blocking ==> st.currentSize == maxsize)
    && st.closed == {}
  }

  /** No connection is in two places: held by two sessions, twice in the queue, or both held and queued. */
  ghost predicate ExclusiveInv(st: State) {
    && (forall i, j :: 0 <= i < j < |st.idle| ==> st.idle[i] != st.idle[j])
    && (forall s, t :: s in st.clients && t in st.clients && s != t ==> st.clients[s] != st.clients[t])
    && (forall s :: s in st.clients ==> st.clients[s] !in st.idle && st.clients[s] in st.created)
    && (forall c :: c in st.idle ==> c in st.created)
  }

  ghost predicate Inv(maxsize: nat, st: State) {
    LockInv(st) && SizeInv(maxsize, st) && ExclusiveInv(st)
  }

  lemma WithoutSize(m: map<Session, Connection>, s: Session)
    requires s in m
    ensures |m - {s}| == |m| - 1
  {
    assert (m - {s}).Keys == m.Keys - {s};
  }

  lemma LockedStepKeepsLock(maxsize: nat, st: State, e: Event)
    requires LockInv(st) && Enabled(st, e)
    requires e.Check? || e.Connect? || e.ConnectFails? || e.Count? || e.Unblock? || e.Unlock?
    ensures LockInv(Next(maxsize, st, e))
  {
  }

  lemma StepKeepsLock(maxsize: nat, st: State, e: Event)
    requires LockInv(st) && Enabled(st, e)
    ensures LockInv(Next(maxsize, st, e))
  {
    if e.Check? || e.Connect? || e.ConnectFails? || e.Count? || e.Unblock? || e.Unlock? {
      LockedStepKeepsLock(maxsize, st, e);
    }
  }

  lemma TakeKeepsSize(maxsize: nat, st: State, s: Session, pc: Pc)
    requires LockInv(st) && SizeInv(maxsize, st) && st.idle != []
    requires (At(st, s, Starting) && pc == Leasing) || (At(st, s, Blocking) && pc == Releasing)
    ensures SizeInv(maxsize, Take(st, s, pc))
  {
  }

  lemma TakeKeepsExclusive(st: State, s: Session, pc: Pc)
    requires ExclusiveInv(st) && st.idle != [] && s !in st.clients
    ensures ExclusiveInv(Take(st, s, pc))
  {
  }

  lemma ReturnKeepsSize(maxsize: nat, st: State, s: Session)
    requires LockInv(st) && SizeInv(maxsize, st) && Enabled(st, Return(s))
    ensures |st.idle| < maxsize
    ensures SizeInv(maxsize, Next(maxsize, st, Return(s)))
  {
    WithoutSize(st.clients, s);
  }

  lemma ReturnKeepsExclusive(maxsize: nat, st: State, s: Session)
    requires ExclusiveInv(st) && Enabled(st, Return(s))
    ensures ExclusiveInv(Next(maxsize, st, Return(s)))
  {
  }

  lemma ConnectKeepsRest(maxsize: nat, st: State, s: Session, c: Connection)
    requires LockInv(st) && SizeInv(maxsize, st) && ExclusiveInv(st) && Enabled(st, Connect(s, c))
    ensures SizeInv(maxsize, Next(maxsize, st, Connect(s, c))) && ExclusiveInv(Next(maxsize, st, Connect(s, c)))
  {
  }

  predicate Quiet(st: State, e: Event) {
    e.Begin? || e.Acquire? || e.Check? || e.ConnectFails? || e.Count? || e.Unlock? || (e.TryGet? && st.idle == [])
  }

  lemma QuietKeepsSize(maxsize: nat, st: State, e: Event)
    requires LockInv(st) && SizeInv(maxsize, st) && Enabled(st, e) && Quiet(st, e)
    ensures SizeInv(maxsize, Next(maxsize, st, e))
  {
  }

  lemma QuietKeepsRest(maxsize: nat, st: State, e: Event)
    requires LockInv(st) && SizeInv(maxsize, st) && ExclusiveInv(st) && Enabled(st, e) && Quiet(st, e)
    ensures SizeInv(maxsize, Next(maxsize, st, e)) && ExclusiveInv(Next(maxsize, st, e))
  {
    QuietKeepsSize(maxsize, st, e);
  }

  lemma CloseAllKeepsRest(maxsize: nat, st: State)
    requires Inv(maxsize, st) && Enabled(st, CloseAll)
    ensures SizeInv(maxsize, Closed(st)) && ExclusiveInv(Closed(st))
  {
    assert st.clients.Keys == {};
    assert st.clients == map[];
  }

  lemma StepKeepsRest(maxsize: nat, st: State, e: Event)
    requires LockInv(st) && SizeInv(maxsize, st) && ExclusiveInv(st) && Enabled(st, e)
    ensures SizeInv(maxsize, Next(maxsize, st, e)) && ExclusiveInv(Next(maxsize, st, e))
  {
    if e.Return? {
      ReturnKeepsSize(maxsize, st, e.s);
      ReturnKeepsExclusive(maxsize, st, e.s);
    } else if e.Connect? {
      ConnectKeepsRest(maxsize, st, e.s, e.c);
    } else if e.Unblock? {
      TakeKeepsSize(maxsize, st, e.s, Releasing);
      TakeKeepsExclusive(st, e.s, Releasing);
    } else if e.TryGet? && st.idle != [] {
      TakeKeepsSize(maxsize, st, e.s, Leasing);
      TakeKeepsExclusive(st, e.s, Leasing);
    } else if e.CloseAll? {
      CloseAllKeepsRest(maxsize, st);
    } else {
      QuietKeepsRest(maxsize, st, e);
    }
  }

  lemma {:induction false} StepKeepsInv(maxsize: nat, st: State, e: Event)
    requires Inv(maxsize, st) && Enabled(st, e)
    ensures Inv(maxsize, Next(maxsize, st, e))
  {
    StepKeepsLock(maxsize, st, e);
    StepKeepsRest(maxsize, st, e);
  }

  // ----- Runs

  ghost predicate IsRun(maxsize: nat, st: State, events: seq<Event>)
    decreases |events|
  {
    events == [] || (Enabled(st, events[0]) && IsRun(maxsize, Next(maxsize, st, events[0]), events[1..]))
  }

  ghost function After(maxsize: nat, st: State, events: seq<Event>): State
    requires IsRun(maxsize, st, events)
    decreases |events|
  {
    if events == [] then st else After(maxsize, Next(maxsize, st, events[0]), events[1..])
  }

  lemma {:induction false} RunKeepsInv(maxsize: nat, st: State, events: seq<Event>)
    requires Inv(maxsize, st) && IsRun(maxsize, st, events)
    ensures Inv(maxsize, After(maxsize, st, events))
    decreases |events|
  {
    if events != [] {
      StepKeepsInv(maxsize, st, events[0]);
      RunKeepsInv(maxsize, Next(maxsize, st, events[0]), events[1..]);
    }
  }

  /** Safety of every interleaving of any number of sessions. */
  lemma PoolIsSafe(maxsize: nat, events: seq<Event>)
    requires IsRun(maxsize, EMPTY, events)
    ensures var st := After(maxsize, EMPTY, events);
            && st.currentSize == |st.idle| + Leased(st)
            && st.currentSize <= maxsize
            && (forall s, t :: s in st.clients && t in st.clients && s != t ==> st.clients[s] != st.clients[t])
            && (forall s :: s in st.clients ==> st.clients[s] !in st.idle)
            && (forall s :: Enabled(st, Return(s)) ==> |st.idle| < maxsize)
            && st.closed == {}
  {
    assert Inv(maxsize, EMPTY);
    RunKeepsInv(maxsize, EMPTY, events);
    var st := After(maxsize, EMPTY, events);
    forall s | Enabled(st, Return(s))
      ensures |st.idle| < maxsize
    {
      ReturnKeepsSize(maxsize, st, s);
    }
  }

  // ----- First in, first out

  /** The connection that the step puts into the queue. */
  function PutByStep(maxsize: nat, st: State, e: Event): seq<Connection>
    requires Enabled(st, e)
  {
    if e.Return? && |st.idle| < maxsize then [st.clients[e.s]] else []
  }

  /** The connection that a session gets from the queue in the step, or those that are closed. */
  function TakenByStep(maxsize: nat, st: State, e: Event): seq<Connection>
    requires Enabled(st, e)
  {
    var next := Next(maxsize, st, e);
    if (e.TryGet? || e.Unblock?) && e.s in next.clients && (e.Unblock? || At(next, e.s, Leasing))
    then [next.clients[e.s]] else if e.CloseAll? then st.idle else []
  }

  /** The connections that go into the queue during the run, in order. */
  ghost function PutIn(maxsize: nat, st: State, events: seq<Event>): seq<Connection>
    requires IsRun(maxsize, st, events)
    decreases |events|
  {
    if events == [] then []
    else PutByStep(maxsize, st, events[0]) + PutIn(maxsize, Next(maxsize, st, events[0]), events[1..])
  }

  /** The connections that come out of the queue during the run, in order. */
  ghost function TakenOut(maxsize: nat, st: State, events: seq<Event>): seq<Connection>
    requires IsRun(maxsize, st, events)
    decreases |events|
  {
    if events == [] then []
    else TakenByStep(maxsize, st, events[0]) + TakenOut(maxsize, Next(maxsize, st, events[0]), events[1..])
  }

  lemma StepInOut(maxsize: nat, st: State, e: Event)
    requires LockInv(st) && Enabled(st, e)
    ensures st.idle + PutByStep(maxsize, st, e) == TakenByStep(maxsize, st, e) + Next(maxsize, st, e).idle
  {
  }

  /** In every run connections leave the queue in the order in which they were returned. */
  lemma {:induction false} FirstInFirstOut(maxsize: nat, st: State, events: seq<Event>)
    requires LockInv(st) && IsRun(maxsize, st, events)
    ensures st.idle + PutIn(maxsize, st, events)
         == TakenOut(maxsize, st, events) + After(maxsize, st, events).idle
    decreases |events|
  {
    if events != [] {
      var e, next := events[0], Next(maxsize, st, events[0]);
      StepKeepsLock(maxsize, st, e);
      StepInOut(maxsize, st, e);
      FirstInFirstOut(maxsize, next, events[1..]);
      Rejoin(st.idle, PutByStep(maxsize, st, e), PutIn(maxsize, next, events[1..]), TakenByStep(maxsize, st, e),
             next.idle, TakenOut(maxsize, next, events[1..]), After(maxsize, st, events).idle);
    }
  }

  lemma Rejoin(a: seq<Connection>, put: seq<Connection>, puts: seq<Connection>, out: seq<Connection>,
               b: seq<Connection>, outs: seq<Connection>, c: seq<Connection>)
    requires a + put == out + b && b + puts == outs + c
    ensures a + (put + puts) == (out + outs) + c
  {
    assert a + (put + puts) == (a + put) + puts;
    assert (out + b) + puts == out + (b + puts);
    assert out + (outs + c) == (out + outs) + c;
  }

  // ----- No deadlock

  /**
   * A session blocked with the lock can always be freed: a connection is idle, or leased to a session that can return
   * it.
   */
  lemma BlockedCanBeFreed(maxsize: nat, st: State, s: Session) returns (t: Session)
    requires maxsize > 0 && Inv(maxsize, st) && At(st, s, Blocking)
    ensures st.idle == [] ==> Enabled(st, Return(t)) && t != s && Enabled(Next(maxsize, st, Return(t)), Unblock(s))
  {
    t := s;
    if st.idle == [] {
      assert |st.clients| == maxsize;
      assert st.clients.Keys == {} ==> st.clients == map[];
      t :| t in st.clients;
    }
  }

  predicate Finishing(e: Event) {
    !e.Begin? && !e.CloseAll?
  }

  /** Deadlock freedom: while some session is not done, some session can take a step. */
  lemma SomeStepIsEnabled(maxsize: nat, st: State, s: Session) returns (e: Event)
    requires maxsize > 0 && Inv(maxsize, st) && s in st.pcs && st.pcs[s] != Done
    ensures Finishing(e) && Enabled(st, e)
  {
    var t := if st.pcs[s] == AtLock && st.lock.HeldBy? then st.lock.session else s;
    match st.pcs[t]
    case Starting => e := TryGet(t);
    case AtLock => e := Acquire(t);
    case Checking => e := Check(t);
    case Connecting => e := ConnectFails(t);
    case Connected => e := Count(t);
    case Blocking =>
      e := Unblock(t);
      if st.idle == [] {
        var u := BlockedCanBeFreed(maxsize, st, t);
        e := Return(u);
      }
    case Releasing => e := Unlock(t);
    case Leasing => e := Return(t);
  }

  /** How many more steps a session may take at most. */
  function Remaining(pc: Pc): nat {
    match pc
    case Starting => 7
    case AtLock => 6
    case Checking => 5
    case Connecting => 4
    case Connected => 3
    case Blocking => 3
    case Releasing => 2
    case Leasing => 1
    case Done => 0
  }

  ghost function Work(pcs: map<Session, Pc>): nat
    decreases |pcs|
  {
    if pcs == map[] then 0
    else
      var s :| s in pcs;
      assert (pcs - {s}).Keys == pcs.Keys - {s};
      Remaining(pcs[s]) + Work(pcs - {s})
  }

  lemma {:induction false} WorkWithout(pcs: map<Session, Pc>, s: Session)
    requires s in pcs
    ensures Work(pcs) == Remaining(pcs[s]) + Work(pcs - {s})
    decreases |pcs|
  {
    var t :| t in pcs && Work(pcs) == Remaining(pcs[t]) + Work(pcs - {t});
    if t != s {
      assert (pcs - {t}).Keys == pcs.Keys - {t};
      assert (pcs - {s}).Keys == pcs.Keys - {s};
      WorkWithout(pcs - {t}, s);
      WorkWithout(pcs - {s}, t);
      assert pcs - {t} - {s} == pcs - {s} - {t};
    }
  }

  lemma StepReducesWork(maxsize: nat, st: State, e: Event)
    requires Enabled(st, e) && Finishing(e)
    ensures Work(Next(maxsize, st, e).pcs) < Work(st.pcs)
  {
    var s, next := e.s, Next(maxsize, st, e).pcs;
    assert next - {s} == st.pcs - {s};
    WorkWithout(st.pcs, s);
    WorkWithout(next, s);
  }

  lemma {:induction false} RunsAreBounded(maxsize: nat, st: State, events: seq<Event>)
    requires IsRun(maxsize, st, events) && forall i :: 0 <= i < |events| ==> Finishing(events[i])
    ensures |events| + Work(After(maxsize, st, events).pcs) <= Work(st.pcs)
    decreases |events|
  {
    if events != [] {
      StepReducesWork(maxsize, st, events[0]);
      RunsAreBounded(maxsize, Next(maxsize, st, events[0]), events[1..]);
    }
  }

  /**
   * Every lease ends, whatever the schedule: once no new session begins, a run has at most `Work` steps left,
   * and it can only stop where every session is done.
   */
  lemma EveryLeaseEnds(maxsize: nat, before: seq<Event>, after: seq<Event>)
    requires maxsize > 0 && IsRun(maxsize, EMPTY, before)
    requires IsRun(maxsize, After(maxsize, EMPTY, before), after)
    requires forall i :: 0 <= i < |after| ==> Finishing(after[i])
    ensures var start := After(maxsize, EMPTY, before);
            var end := After(maxsize, start, after);
            && |after| <= Work(start.pcs)
            && ((forall e :: Finishing(e) ==> !Enabled(end, e)) ==> forall s :: s in end.pcs ==> end.pcs[s] == Done)
  {
    var start := After(maxsize, EMPTY, before);
    RunKeepsInv(maxsize, EMPTY, before);
    RunKeepsInv(maxsize, start, after);
    RunsAreBounded(maxsize, start, after);
    var end := After(maxsize, start, after);
    forall s | s in end.pcs && end.pcs[s] != Done
      ensures exists e :: Finishing(e) && Enabled(end, e)
    {
      var e := SomeStepIsEnabled(maxsize, end, s);
    }
  }

  lemma {:induction false} RunExtends(maxsize: nat, st: State, events: seq<Event>, e: Event)
    requires IsRun(maxsize, st, events) && Enabled(After(maxsize, st, events), e)
    ensures IsRun(maxsize, st, events + [e])
    ensures After(maxsize, st, events + [e]) == Next(maxsize, After(maxsize, st, events), e)
    decreases |events|
  {
    if events == [] {
      assert events + [e] == [e] && [e][1..] == [];
    } else {
      assert (events + [e])[1..] == events[1..] + [e];
      RunExtends(maxsize, Next(maxsize, st, events[0]), events[1..], e);
    }
  }

  /** Sessions 1 and 2 start with an empty pool; session 1 opens connection 10 while session 2 waits for the lock. */
  lemma OneOpensOneWaits(maxsize: nat) returns (events: seq<Event>)
    requires maxsize >= 2
    ensures IsRun(maxsize, EMPTY, events)
    ensures var st := After(maxsize, EMPTY, events);
            && At(st, 1, Releasing) && At(st, 2, AtLock) && st.lock == HeldBy(1) && st.clients == map[1 := 10]
            && st.idle == [] && st.currentSize == 1 && st.created == {10}
  {
    events := [];
    RunExtends(maxsize, EMPTY, events, Begin(1));
    events := events + [Begin(1)];
    RunExtends(maxsize, EMPTY, events, TryGet(1));
    events := events + [TryGet(1)];
    RunExtends(maxsize, EMPTY, events, Acquire(1));
    events := events + [Acquire(1)];
    RunExtends(maxsize, EMPTY, events, Check(1));
    events := events + [Check(1)];
    RunExtends(maxsize, EMPTY, events, Connect(1, 10));
    events := events + [Connect(1, 10)];
    RunExtends(maxsize, EMPTY, events, Count(1));
    events := events + [Count(1)];
    RunExtends(maxsize, EMPTY, events, Begin(2));
    events := events + [Begin(2)];
    RunExtends(maxsize, EMPTY, events, TryGet(2));
    events := events + [TryGet(2)];
  }

  /** With room for two, a session opens a connection although one became idle while it waited for the lock. */
  lemma OpensDespiteIdle(maxsize: nat) returns (events: seq<Event>)
    requires maxsize >= 2
    ensures IsRun(maxsize, EMPTY, events)
    ensures var st := After(maxsize, EMPTY, events); st.idle == [10] && Enabled(st, Connect(2, 20))
  {
    events := OneOpensOneWaits(maxsize);
    RunExtends(maxsize, EMPTY, events, Unlock(1));
    events := events + [Unlock(1)];
    RunExtends(maxsize, EMPTY, events, Return(1));
    events := events + [Return(1)];
    RunExtends(maxsize, EMPTY, events, Acquire(2));
    events := events + [Acquire(2)];
    RunExtends(maxsize, EMPTY, events, Check(2));
    events := events + [Check(2)];
  }

  /** In every run a connection is opened only while none is idle. */
  ghost predicate OpensOnlyWhenNoneIdle(maxsize: nat) {
    forall events, s, c ::
      IsRun(maxsize, EMPTY, events) && Enabled(After(maxsize, EMPTY, events), Connect(s, c)) ==>
        After(maxsize, EMPTY, events).idle == []
  }

  /**
   * The size is checked again under the lock, but not the queue: a connection is opened only while none is idle if and
   * only if the pool holds at most one.
   */
  lemma SecondLookSuffices(maxsize: nat)
    ensures OpensOnlyWhenNoneIdle(maxsize) <==> maxsize <= 1
  {
    if maxsize <= 1 {
      forall events, s, c | IsRun(maxsize, EMPTY, events) && Enabled(After(maxsize, EMPTY, events), Connect(s, c))
        ensures After(maxsize, EMPTY, events).idle == []
      {
        RunKeepsInv(maxsize, EMPTY, events);
      }
    } else {
      var events := OpensDespiteIdle(maxsize);
      assert Enabled(After(maxsize, EMPTY, events), Connect(2, 20));
    }
  }

  // ----- Closing the pool between the steps of sessions

  /** No counted connection is leased and no session waits for one. */
  predicate NoneInUse(st: State) {
    Leased(st) == 0 && forall s :: s in st.pcs ==> st.pcs[s] != Blocking
  }

  /** Some run ends where a session returns its connection to a full queue. */
  ghost predicate CanOverflow(maxsize: nat, st: State) {
    exists events, s ::
      IsRun(maxsize, st, events) && Enabled(After(maxsize, st, events), Return(s))
      && |After(maxsize, st, events).idle| >= maxsize
  }

  /** Some run gets the session out of its blocking get. */
  ghost predicate CanUnblock(maxsize: nat, st: State, s: Session) {
    exists events :: IsRun(maxsize, st, events) && !At(After(maxsize, st, events), s, Blocking)
  }

  lemma OverflowLater(maxsize: nat, st: State, e: Event)
    requires Enabled(st, e) && CanOverflow(maxsize, Next(maxsize, st, e))
    ensures CanOverflow(maxsize, st)
  {
    var later, s :| IsRun(maxsize, Next(maxsize, st, e), later)
      && Enabled(After(maxsize, Next(maxsize, st, e), later), Return(s))
      && |After(maxsize, Next(maxsize, st, e), later).idle| >= maxsize;
    assert ([e] + later)[1..] == later;
    assert IsRun(maxsize, st, [e] + later);
    assert After(maxsize, st, [e] + later) == After(maxsize, Next(maxsize, st, e), later);
  }

  lemma OverflowNow(maxsize: nat, st: State, s: Session)
    requires Enabled(st, Return(s)) && |st.idle| >= maxsize
    ensures CanOverflow(maxsize, st)
  {
    var none: seq<Event> := [];
    assert IsRun(maxsize, st, none) && After(maxsize, st, none) == st;
  }

  /** More connections are about than the full pool has: returning them overfills the queue. */
  lemma {:induction false} ReturnUntilFull(maxsize: nat, st: State)
    requires LockInv(st) && st.lock == Free && st.clients != map[] && |st.idle| + |st.clients| > maxsize
    ensures CanOverflow(maxsize, st)
    decreases maxsize - |st.idle|
  {
    assert st.clients.Keys != {};
    var s :| s in st.clients;
    assert At(st, s, Leasing);
    if |st.idle| >= maxsize {
      OverflowNow(maxsize, st, s);
    } else {
      StepKeepsLock(maxsize, st, Return(s));
      WithoutSize(st.clients, s);
      ReturnUntilFull(maxsize, Next(maxsize, st, Return(s)));
      OverflowLater(maxsize, st, Return(s));
    }
  }

  lemma {:induction false} FreshNumber(used: set<nat>) returns (n: nat)
    ensures forall x :: x in used ==> x < n
  {
    if used == {} {
      n := 0;
    } else {
      var x :| x in used;
      var m := FreshNumber(used - {x});
      n := if x < m then m else x + 1;
      assert forall y :: y in used ==> y == x || y in used - {x};
    }
  }

  lemma LeaseIdle(maxsize: nat, st: State, s: Session)
    requires st.idle != [] && s !in st.pcs
    requires CanOverflow(maxsize, Take(st, s, Leasing))
    ensures CanOverflow(maxsize, st)
  {
    var begun := Move(st, s, Starting);
    assert Next(maxsize, begun, TryGet(s)) == Take(st, s, Leasing) by {
      assert st.pcs[s := Starting][s := Leasing] == st.pcs[s := Leasing];
    }
    OverflowLater(maxsize, begun, TryGet(s));
    OverflowLater(maxsize, st, Begin(s));
  }

  /** A session has opened and counted a new connection. */
  function Opened(st: State, s: Session, c: Connection): State {
    Move(st, s, Leasing).(clients := st.clients[s := c], created := st.created + {c}, currentSize := st.currentSize + 1)
  }

  lemma LeaseNew(maxsize: nat, st: State, s: Session, c: Connection)
    requires st.idle == [] && st.lock == Free && st.currentSize < maxsize && s !in st.pcs && c !in st.created
    requires CanOverflow(maxsize, Opened(st, s, c))
    ensures CanOverflow(maxsize, st)
  {
    OpenFromConnecting(maxsize, st, s, c);
    LockFromWaiting(maxsize, st, s);
    WaitFromBegin(maxsize, st, s);
  }

  lemma WaitFromBegin(maxsize: nat, st: State, s: Session)
    requires st.idle == [] && s !in st.pcs && CanOverflow(maxsize, Move(st, s, AtLock))
    ensures CanOverflow(maxsize, st)
  {
    var begun := Move(st, s, Starting);
    assert st.pcs[s := Starting][s := AtLock] == st.pcs[s := AtLock];
    OverflowLater(maxsize, begun, TryGet(s));
    OverflowLater(maxsize, st, Begin(s));
  }

  lemma LockFromWaiting(maxsize: nat, st: State, s: Session)
    requires st.lock == Free && st.currentSize < maxsize && s !in st.pcs
    requires CanOverflow(maxsize, Move(st, s, Connecting).(lock := HeldBy(s)))
    ensures CanOverflow(maxsize, Move(st, s, AtLock))
  {
    var waiting, checking := Move(st, s, AtLock), Move(st, s, Checking).(lock := HeldBy(s));
    assert st.pcs[s := AtLock][s := Checking] == st.pcs[s := Checking];
    assert st.pcs[s := Checking][s := Connecting] == st.pcs[s := Connecting];
    OverflowLater(maxsize, checking, Check(s));
    OverflowLater(maxsize, waiting, Acquire(s));
  }

  lemma OpenFromConnecting(maxsize: nat, st: State, s: Session, c: Connection)
    requires st.lock == Free && s !in st.pcs && c !in st.created
    requires CanOverflow(maxsize, Opened(st, s, c))
    ensures CanOverflow(maxsize, Move(st, s, Connecting).(lock := HeldBy(s)))
  {
    var connecting := Move(st, s, Connecting).(lock := HeldBy(s));
    var connected := Next(maxsize, connecting, Connect(s, c));
    var counted := Next(maxsize, connected, Count(s));
    assert Next(maxsize, counted, Unlock(s)) == Opened(st, s, c) by {
      assert st.pcs[s := Connecting][s := Connected][s := Releasing][s := Leasing] == st.pcs[s := Leasing];
    }
    OverflowLater(maxsize, counted, Unlock(s));
    OverflowLater(maxsize, connected, Count(s));
    OverflowLater(maxsize, connecting, Connect(s, c));
  }

  /** With the lock free and a connection too many, new sessions take up all the room, and then all return. */
  lemma {:induction false} LeaseUntilFull(maxsize: nat, st: State)
    requires LockInv(st) && st.lock == Free && st.currentSize <= maxsize && |st.idle| + |st.clients| > st.currentSize
    ensures CanOverflow(maxsize, st)
    decreases |st.idle| + maxsize - st.currentSize
  {
    var s := FreshNumber(st.pcs.Keys);
    if st.idle != [] {
      LeaseUntilFull(maxsize, Take(st, s, Leasing));
      LeaseIdle(maxsize, st, s);
    } else if st.currentSize < maxsize {
      var c := FreshNumber(st.created);
      LeaseUntilFull(maxsize, Opened(st, s, c));
      LeaseNew(maxsize, st, s, c);
    } else {
      ReturnUntilFull(maxsize, st);
    }
  }

  /** More connections are idle or leased than are counted. */
  ghost predicate Surplus(maxsize: nat, st: State) {
    && LockInv(st)
    && 0 <= st.currentSize <= maxsize && |st.idle| + Leased(st) > st.currentSize
    && (forall s :: s in st.pcs && st.pcs[s] in {Connecting, Connected} ==> st.currentSize < maxsize)
  }

  lemma HolderKeepsSurplus(maxsize: nat, st: State, e: Event)
    requires Surplus(maxsize, st) && Enabled(st, e)
    requires e.Check? || e.ConnectFails? || e.Count? || e.Unblock? || e.Unlock?
    ensures Surplus(maxsize, Next(maxsize, st, e))
  {
    StepKeepsLock(maxsize, st, e);
  }

  lemma ReturnKeepsSurplus(maxsize: nat, st: State, s: Session)
    requires Surplus(maxsize, st) && Enabled(st, Return(s)) && |st.idle| < maxsize
    ensures Surplus(maxsize, Next(maxsize, st, Return(s)))
  {
    StepKeepsLock(maxsize, st, Return(s));
    WithoutSize(st.clients, s);
  }

  /** What the holder of the lock does next, so as to release it. */
  function HolderStep(st: State): Event
    requires LockInv(st) && st.lock.HeldBy?
  {
    var h := st.lock.session;
    match st.pcs[h]
    case Checking => Check(h)
    case Connecting => ConnectFails(h)
    case Connected => Count(h)
    case Blocking => Unblock(h)
    case _ => Unlock(h)
  }

  lemma LeasedWhileBlocked(maxsize: nat, st: State) returns (s: Session)
    requires Surplus(maxsize, st) && st.lock.HeldBy? && At(st, st.lock.session, Blocking) && st.idle == []
    ensures Enabled(st, Return(s)) && s != st.lock.session
  {
    assert st.clients.Keys == {} ==> st.clients == map[];
    s :| s in st.clients;
  }

  lemma {:induction false} SurplusOverflows(maxsize: nat, st: State)
    requires maxsize > 0 && Surplus(maxsize, st)
    ensures CanOverflow(maxsize, st)
    decreases if st.lock.HeldBy? then Remaining(st.pcs[st.lock.session]) else 0, if st.idle == [] then 1 else 0
  {
    if st.lock == Free {
      LeaseUntilFull(maxsize, st);
    } else if At(st, st.lock.session, Blocking) && st.idle == [] {
      var s := LeasedWhileBlocked(maxsize, st);
      ReturnKeepsSurplus(maxsize, st, s);
      SurplusOverflows(maxsize, Next(maxsize, st, Return(s)));
      OverflowLater(maxsize, st, Return(s));
    } else {
      var e := HolderStep(st);
      HolderKeepsSurplus(maxsize, st, e);
      SurplusOverflows(maxsize, Next(maxsize, st, e));
      OverflowLater(maxsize, st, e);
    }
  }

  /** A session waits with the lock held, and no connection is left anywhere. */
  ghost predicate Stranded(st: State, s: Session) {
    LockInv(st) && At(st, s, Blocking) && st.idle == [] && st.clients == map[]
  }

  lemma {:induction false} StrandedForever(maxsize: nat, st: State, s: Session, events: seq<Event>)
    requires Stranded(st, s) && IsRun(maxsize, st, events)
    ensures Stranded(After(maxsize, st, events), s)
    decreases |events|
  {
    if events != [] {
      StepKeepsLock(maxsize, st, events[0]);
      StrandedForever(maxsize, Next(maxsize, st, events[0]), s, events[1..]);
    }
  }

  lemma BlockedForever(maxsize: nat, st: State, s: Session)
    requires Inv(maxsize, st) && Leased(st) == 0 && At(st, s, Blocking)
    ensures !CanUnblock(maxsize, Closed(st), s)
  {
    assert st.clients == map[];
    forall events | IsRun(maxsize, Closed(st), events)
      ensures At(After(maxsize, Closed(st), events), s, Blocking)
    {
      StrandedForever(maxsize, Closed(st), s, events);
    }
  }

  lemma SafeWhenNoneInUse(maxsize: nat, st: State)
    requires maxsize > 0 && Inv(maxsize, st) && NoneInUse(st)
    ensures !CanOverflow(maxsize, Closed(st))
  {
    assert Inv(maxsize, Closed(st));
    forall events, s
      | IsRun(maxsize, Closed(st), events) && Enabled(After(maxsize, Closed(st), events), Return(s))
      ensures |After(maxsize, Closed(st), events).idle| < maxsize
    {
      RunKeepsInv(maxsize, Closed(st), events);
      ReturnKeepsSize(maxsize, After(maxsize, Closed(st), events), s);
    }
  }

  /**
   * `close_all`, taken as one step between those of the sessions, does no harm exactly while no connection is leased
   * and no session is blocked: otherwise some later run overfills the queue, or some session is blocked for ever.
   */
  lemma CloseAllIsSafe(maxsize: nat, st: State)
    requires maxsize > 0 && Inv(maxsize, st)
    ensures NoneInUse(st) <==>
      && !CanOverflow(maxsize, Closed(st))
      && forall s :: At(st, s, Blocking) ==> CanUnblock(maxsize, Closed(st), s)
  {
    if NoneInUse(st) {
      SafeWhenNoneInUse(maxsize, st);
    } else if Leased(st) != 0 {
      SurplusOverflows(maxsize, Closed(st));
    } else {
      var s :| s in st.pcs && st.pcs[s] == Blocking;
      assert At(st, s, Blocking);
      BlockedForever(maxsize, st, s);
    }
  }

  lemma OneMayConnect() returns (events: seq<Event>)
    ensures IsRun(1, EMPTY, events)
    ensures After(1, EMPTY, events) == State([], 0, HeldBy(1), map[1 := Connecting], map[], {}, {})
  {
    events := [];
    RunExtends(1, EMPTY, events, Begin(1));
    events := events + [Begin(1)];
    RunExtends(1, EMPTY, events, TryGet(1));
    events := events + [TryGet(1)];
    RunExtends(1, EMPTY, events, Acquire(1));
    events := events + [Acquire(1)];
    RunExtends(1, EMPTY, events, Check(1));
    events := events + [Check(1)];
  }

  /** Session 1 leases connection 10 from a pool of one. */
  lemma OneLeases() returns (events: seq<Event>)
    ensures IsRun(1, EMPTY, events)
    ensures After(1, EMPTY, events) == State([], 1, Free, map[1 := Leasing], map[1 := 10], {10}, {})
  {
    events := OneMayConnect();
    RunExtends(1, EMPTY, events, Connect(1, 10));
    events := events + [Connect(1, 10)];
    RunExtends(1, EMPTY, events, Count(1));
    events := events + [Count(1)];
    RunExtends(1, EMPTY, events, Unlock(1));
    events := events + [Unlock(1)];
  }

  /** A second session opens connection 20. */
  lemma AnotherOpens(st: State) returns (events: seq<Event>)
    requires st == State([], 0, Free, map[1 := Leasing], map[1 := 10], {10}, {})
    ensures IsRun(1, st, events)
    ensures After(1, st, events)
         == State([], 0, HeldBy(2), map[1 := Leasing, 2 := Connected], map[1 := 10, 2 := 20], {10, 20}, {})
  {
    events := [];
    RunExtends(1, st, events, Begin(2));
    events := events + [Begin(2)];
    RunExtends(1, st, events, TryGet(2));
    events := events + [TryGet(2)];
    RunExtends(1, st, events, Acquire(2));
    events := events + [Acquire(2)];
    RunExtends(1, st, events, Check(2));
    events := events + [Check(2)];
    RunExtends(1, st, events, Connect(2, 20));
    events := events + [Connect(2, 20)];
  }

  /** It leases that connection and returns it. */
  lemma AnotherReturns(st: State) returns (events: seq<Event>)
    requires st == State([], 0, Free, map[1 := Leasing], map[1 := 10], {10}, {})
    ensures IsRun(1, st, events)
    ensures After(1, st, events).idle == [20] && Enabled(After(1, st, events), Return(1))
  {
    events := AnotherOpens(st);
    RunExtends(1, st, events, Count(2));
    events := events + [Count(2)];
    RunExtends(1, st, events, Unlock(2));
    events := events + [Unlock(2)];
    RunExtends(1, st, events, Return(2));
    events := events + [Return(2)];
  }

  /**
   * The smallest case: while one session leases from a pool of one, the pool is closed; a second session leases and
   * returns, and then the queue is full when the first one returns.
   */
  lemma ClosedUnderLease() returns (before: seq<Event>, after: seq<Event>)
    ensures IsRun(1, EMPTY, before) && IsRun(1, Closed(After(1, EMPTY, before)), after)
    ensures var st := After(1, Closed(After(1, EMPTY, before)), after); |st.idle| == 1 && Enabled(st, Return(1))
  {
    before := OneLeases();
    after := AnotherReturns(Closed(After(1, EMPTY, before)));
  }

  // ----- The code, one method for each atomic segment of `lease`

  class QueueConnectionPool {
    const maxsize: nat
    var idle: seq<Connection>
    var currentSize: int
    var lock: Lock
    ghost var pcs: map<Session, Pc>
    ghost var clients: map<Session, Connection>
    ghost var created: set<Connection>
    ghost var closed: set<Connection>

    ghost function St(): State
      reads this
    {
      State(idle, currentSize, lock, pcs, clients, created, closed)
    }

    constructor (size: nat)
      ensures St() == EMPTY && maxsize == size
    {
      maxsize, idle, currentSize, lock := size, [], 0, Free;
      pcs, clients, created, closed := map[], map[], {}, {};
    }

    /** Line 46: `get(block=False)`. */
    method GetNoWait(ghost s: Session) returns (found: bool, client: Connection)
      requires Enabled(St(), TryGet(s))
      modifies this
      ensures St() == Next(maxsize, old(St()), TryGet(s))
      ensures found <==> old(idle) != []
      ensures found ==> s in clients && clients[s] == client
    {
      found, client := idle != [], 0;
      if found {
        client, idle := idle[0], idle[1..];
        clients := clients[s := client];
      }
      pcs := pcs[s := if found then Leasing else AtLock];
    }

    /** Line 49: the lock is free and is taken. */
    method EnterLock(s: Session)
      requires Enabled(St(), Acquire(s))
      modifies this
      ensures St() == Next(maxsize, old(St()), Acquire(s))
    {
      lock := HeldBy(s);
      pcs := pcs[s := Checking];
    }

    /** Line 52. */
    method CheckRoom(ghost s: Session) returns (room: bool)
      requires Enabled(St(), Check(s))
      modifies `pcs
      ensures St() == Next(maxsize, old(St()), Check(s))
      ensures room <==> At(St(), s, Connecting)
    {
      room := currentSize < maxsize;
      pcs := pcs[s := if room then Connecting else Blocking];
    }

    /** Line 54, after the connector returned. */
    method CountConnection(ghost s: Session)
      requires Enabled(St(), Count(s))
      modifies this
      ensures St() == Next(maxsize, old(St()), Count(s))
    {
      currentSize := currentSize + 1;
      pcs := pcs[s := Releasing];
    }

    /** Line 57: `get(block=True)` finds a connection. */
    method GetBlocking(ghost s: Session) returns (client: Connection)
      requires Enabled(St(), Unblock(s))
      modifies this
      ensures St() == Next(maxsize, old(St()), Unblock(s))
      ensures clients[s] == client
    {
      client, idle := idle[0], idle[1..];
      clients, pcs := clients[s := client], pcs[s := Releasing];
    }

    /** The end of the `with` block. */
    method ExitLock(ghost s: Session)
      requires Enabled(St(), Unlock(s))
      modifies this
      ensures St() == Next(maxsize, old(St()), Unlock(s))
    {
      lock := Free;
      pcs := pcs[s := Leasing];
    }

    /** Lines 62-67: `put(block=False)`, or close the connection when the queue is full. */
    method PutBack(ghost s: Session, client: Connection)
      requires Enabled(St(), Return(s)) && client == clients[s]
      modifies this
      ensures St() == Next(maxsize, old(St()), Return(s))
    {
      if |idle| < maxsize {
        idle := idle + [client];
      } else {
        closed := closed + {client};
      }
      clients, pcs := clients - {s}, pcs[s := Done];
    }

    /** `close_all` closes exactly the idle connections. */
    method CloseIdle() returns (closing: seq<Connection>)
      requires Enabled(St(), CloseAll)
      modifies `idle, `currentSize
      ensures St() == Next(maxsize, old(St()), CloseAll)
      ensures closing == old(idle)
    {
      closing := [];
      while idle != []
        invariant closing + idle == old(idle)
        decreases |idle|
      {
        closing, idle := closing + [idle[0]], idle[1..];
      }
      currentSize := 0;
    }
  }
}
