/**
  The pool of orderer connections: Get looks a connection up under the read lock and, if it is
  missing, looks again and dials under the write lock; Close closes and forgets all connections.
 */
module ConnPool {
  import opened Outcomes

  type Key = string
  type Conn = nat

  // ---- The atomic operations ----

  /** dial is the outcome of dialing, should it be needed: a new connection, or none. */
  function AtomicGet(pool: map<Key, Conn>, key: Key, dial: Option<Conn>): (Option<Conn>, map<Key, Conn>) {
    if key in pool then (Some(pool[key]), pool)
    else if dial.Some? then (dial, pool[key := dial.value])
    else (None, pool)
  }

  /**
    A pooled connection is handed out whatever a dial would yield; a missing one is dialed, and pooled if that succeeds.
   */
  lemma AtomicGetMeans(pool: map<Key, Conn>, key: Key, dial: Option<Conn>)
    ensures key in pool ==> AtomicGet(pool, key, dial) == (Some(pool[key]), pool)
    ensures key !in pool && dial.Some? ==> AtomicGet(pool, key, dial) == (dial, pool[key := dial.value])
    ensures key !in pool && dial.None? ==> AtomicGet(pool, key, dial) == (None, pool)
  {
  }

  /** The pool as one caller sees it, with nobody else around. */
  class GrpcPool {
    var connMap: map<Key, Conn>
    var closed: set<Conn>

    constructor ()
      ensures connMap == map[] && closed == {}
    {
      connMap := map[];
      closed := {};
    }

    /** The section under the read lock. */
    method Lookup(key: Key) returns (conn: Option<Conn>)
      ensures conn == if key in connMap then Some(connMap[key]) else None
    {
      if key in connMap {
        return Some(connMap[key]);
      }
      return None;
    }

    /** The section under the write lock: the connection may have been set since the lookup. */
    method DialIfAbsent(key: Key, dial: Option<Conn>) returns (conn: Option<Conn>)
      modifies this
      ensures (conn, connMap) == AtomicGet(old(connMap), key, dial)
      ensures key in old(connMap) ==> conn == Some(old(connMap)[key]) && connMap == old(connMap)
      ensures key !in old(connMap) && dial.Some? ==> conn == dial && connMap == old(connMap)[key := dial.value]
      ensures key !in old(connMap) && dial.None? ==> conn == None && connMap == old(connMap)
      ensures closed == old(closed)
    {
      if key in connMap {
        return Some(connMap[key]);
      }
      if dial == None {
        return None;
      }
      connMap := connMap[key := dial.value];
      return dial;
    }

    method Get(key: Key, dial: Option<Conn>) returns (conn: Option<Conn>)
      modifies this
      ensures (conn, connMap) == AtomicGet(old(connMap), key, dial)
      ensures key in old(connMap) ==> conn == Some(old(connMap)[key]) && connMap == old(connMap)
      ensures key !in old(connMap) && dial.Some? ==> conn == dial && connMap == old(connMap)[key := dial.value]
      ensures key !in old(connMap) && dial.None? ==> conn == None && connMap == old(connMap)
      ensures closed == old(closed)
    {
      conn := Lookup(key);
      if conn == None {
        conn := DialIfAbsent(key, dial);
      }
    }

    method Close()
      modifies this
      ensures connMap == map[]
      ensures closed == old(closed) + old(connMap).Values
    {
      while connMap != map[]
        invariant connMap.Keys <= old(connMap).Keys
        invariant forall k | k in connMap :: connMap[k] == old(connMap)[k]
        invariant closed == old(closed) + (set k | k in old(connMap) && k !in connMap :: old(connMap)[k])
        decreases connMap.Keys
      {
        var key :| key in connMap;
        closed := closed + {connMap[key]};
        connMap := connMap - {key};
      }
    }
  }

  // ---- Threads ----

  /**
    An event of the pool's life: connection conn was dialed for, or handed out for, key during a period between closes.
   */
  datatype Link = Link(period: nat, key: Key, conn: Conn)

  datatype Pc =
    | Idle
    | WantRead(key: Key)
    | Reading(key: Key)               // holds the read lock
    | Hit(answer: Link)               // holds the read lock
    | Missed(key: Key)                // holds the read lock
    | WantWrite(key: Key)
    | Rechecking(key: Key)            // holds the write lock
    | Dialing(key: Key)               // holds the write lock
    | Dialed(key: Key, conn: Conn)    // holds the write lock and a connection not yet in the map
    | Leaving(found: Option<Link>)    // holds the write lock
    | WantClose
    | Closing                         // holds the write lock

  datatype State = State(
    threads: seq<Pc>,
    readers: set<nat>,
    writer: Option<nat>,
    connMap: map<Key, Conn>,
    closed: set<Conn>,
    next: Conn,                // connections are numbered in the order they are dialed
    period: nat,               // the number of closes so far
    dials: seq<Link>,
    answers: seq<Link>)

  datatype Action =
    | CallGet(t: nat, key: Key)
    | CallClose(t: nat)
    | RLock(t: nat)
    | Read(t: nat)
    | RUnlock(t: nat)
    | Lock(t: nat)
    | Recheck(t: nat)
    | DialOk(t: nat)
    | DialFails(t: nat)
    | Insert(t: nat)
    | CloseOne(t: nat, key: Key)
    | Unlock(t: nat)

  function Init(n: nat): State {
    State(seq(n, _ => Idle), {}, None, map[], {}, 0, 0, [], [])
  }

  predicate Enabled(s: State, a: Action) {
    && a.t < |s.threads|
    && var pc := s.threads[a.t];
       match a
       case CallGet(_, _) => pc.Idle?
       case CallClose(_) => pc.Idle?
       case RLock(_) => pc.WantRead? && s.writer.None?
       case Read(_) => pc.Reading?
       case RUnlock(_) => pc.Hit? || pc.Missed?
       case Lock(_) => (pc.WantWrite? || pc.WantClose?) && s.writer.None? && s.readers == {}
       case Recheck(_) => pc.Rechecking?
       case DialOk(_) => pc.Dialing?
       case DialFails(_) => pc.Dialing?
       case Insert(_) => pc.Dialed?
       case CloseOne(_, key) => pc.Closing? && key in s.connMap
       case Unlock(_) => pc.Leaving? || (pc.Closing? && s.connMap == map[])
  }

  function Goto(s: State, t: nat, pc: Pc): State
    requires t < |s.threads|
  {
    s.(threads := s.threads[t := pc])
  }

  function Do(s: State, a: Action): State
    requires Enabled(s, a)
  {
    var t, pc := a.t, s.threads[a.t];
    match a
    case CallGet(_, key) => Goto(s, t, WantRead(key))
    case CallClose(_) => Goto(s, t, WantClose)
    case RLock(_) => Goto(s, t, Reading(pc.key)).(readers := s.readers + {t})
    case Read(_) =>
      if pc.key in s.connMap then
        var link := Link(s.period, pc.key, s.connMap[pc.key]);
        Goto(s, t, Hit(link)).(answers := s.answers + [link])
      else Goto(s, t, Missed(pc.key))
    case RUnlock(_) => Goto(s, t, if pc.Missed? then WantWrite(pc.key) else Idle).(readers := s.readers - {t})
    case Lock(_) =>
      if pc.WantWrite? then Goto(s, t, Rechecking(pc.key)).(writer := Some(t))
      else Goto(s, t, Closing).(writer := Some(t), period := s.period + 1)
    case Recheck(_) =>
      if pc.key in s.connMap then
        var link := Link(s.period, pc.key, s.connMap[pc.key]);
        Goto(s, t, Leaving(Some(link))).(answers := s.answers + [link])
      else Goto(s, t, Dialing(pc.key))
    case DialOk(_) =>
      Goto(s, t, Dialed(pc.key, s.next)).(next := s.next + 1, dials := s.dials + [Link(s.period, pc.key, s.next)])
    case DialFails(_) => Goto(s, t, Leaving(None))
    case Insert(_) =>
      var link := Link(s.period, pc.key, pc.conn);
      Goto(s, t, Leaving(Some(link))).(connMap := s.connMap[pc.key := pc.conn], answers := s.answers + [link])
    case CloseOne(_, key) => s.(closed := s.closed + {s.connMap[key]}, connMap := s.connMap - {key})
    case Unlock(_) => Goto(s, t, Idle).(writer := None)
  }

  // ---- The invariant ----

  predicate HoldsRead(pc: Pc) {
    pc.Reading? || pc.Hit? || pc.Missed?
  }

  predicate HoldsWrite(pc: Pc) {
    pc.Rechecking? || pc.Dialing? || pc.Dialed? || pc.Leaving? || pc.Closing?
  }

  /** The locks are held by the threads that think so, and a writer excludes everybody else. */
  ghost predicate LockInv(s: State) {
    ReadLockInv(s) && WriteLockInv(s)
  }

  ghost predicate ReadLockInv(s: State) {
    && (forall t: nat | t < |s.threads| :: HoldsRead(s.threads[t]) <==> t in s.readers)
    && (s.writer.Some? ==> s.readers == {})
  }

  ghost predicate WriteLockInv(s: State) {
    && (forall t: nat | t < |s.threads| :: HoldsWrite(s.threads[t]) <==> s.writer == Some(t))
    && (s.writer.Some? ==> s.writer.value < |s.threads|)
  }

  /** The thread in the write section, if any. */
  function WriterPc(s: State): Pc {
    if s.writer.Some? && s.writer.value < |s.threads| then s.threads[s.writer.value] else Idle
  }

  /** conn is reachable: in the map, or in the hands of the writer about to insert it. */
  ghost predicate Live(s: State, key: Key, conn: Conn) {
    (key in s.connMap && s.connMap[key] == conn) || WriterPc(s) == Dialed(key, conn)
  }

  /** Connections in the map, in hand, and closed are all different. */
  ghost predicate ApartInv(s: State) {
    && (forall key | key in s.connMap :: s.connMap[key] < s.next && s.connMap[key] !in s.closed)
    && (forall k, l | k in s.connMap && l in s.connMap && k != l :: s.connMap[k] != s.connMap[l])
    && (WriterPc(s).Dialed? ==>
          && WriterPc(s).key !in s.connMap && WriterPc(s).conn < s.next && WriterPc(s).conn !in s.closed
          && forall key | key in s.connMap :: s.connMap[key] != WriterPc(s).conn)
    && (WriterPc(s).Dialing? ==> WriterPc(s).key !in s.connMap)
    && (forall conn | conn in s.closed :: conn < s.next)
  }

  /** Every connection ever dialed is closed or live. */
  ghost predicate KeptInv(s: State) {
    forall conn: Conn | conn < s.next :: conn in s.closed || exists key :: Live(s, key, conn)
  }

  ghost predicate DataInv(s: State) {
    ApartInv(s) && KeptInv(s)
  }

  /** The dials of the current period are exactly the live connections, one per key; during a close there are none. */
  ghost predicate DialsInv(s: State) {
    && (forall i | 0 <= i < |s.dials| :: s.dials[i].period <= s.period)
    && (forall i | 0 <= i < |s.dials| && s.dials[i].period == s.period ::
          !WriterPc(s).Closing? && Live(s, s.dials[i].key, s.dials[i].conn))
    && (!WriterPc(s).Closing? ==> forall key, conn | Live(s, key, conn) :: Link(s.period, key, conn) in s.dials)
    && (forall i, j | 0 <= i < j < |s.dials| ::
        s.dials[i].period != s.dials[j].period || s.dials[i].key != s.dials[j].key)
  }

  /** Every answer was dialed, and every thread that has an answer has a recorded one. */
  ghost predicate AnswersInv(s: State) {
    && (forall link | link in s.answers :: link in s.dials)
    && (forall t | 0 <= t < |s.threads| && s.threads[t].Hit? :: s.threads[t].answer in s.answers)
    && (forall t | 0 <= t < |s.threads| && s.threads[t].Leaving? && s.threads[t].found.Some? ::
        s.threads[t].found.value in s.answers)
  }

  ghost predicate Inv(s: State) {
    LockInv(s) && DataInv(s) && DialsInv(s) && AnswersInv(s)
  }

  lemma InitInv(n: nat)
    ensures Inv(Init(n))
  {
  }

  lemma LockStep(s: State, a: Action)
    requires LockInv(s) && Enabled(s, a)
    ensures LockInv(Do(s, a))
  {
    hide ReadLockInv, WriteLockInv, Do, Enabled;
    ReadLockStep(s, a);
    WriteLockStep(s, a);
  }

  lemma ReadLockStep(s: State, a: Action)
    requires LockInv(s) && Enabled(s, a)
    ensures ReadLockInv(Do(s, a))
  {
  }

  lemma WriteLockStep(s: State, a: Action)
    requires WriteLockInv(s) && Enabled(s, a)
    ensures WriteLockInv(Do(s, a))
  {
  }

  /**
    A step inside the write section is the writer's own; entering and leaving it neither dials nor holds a connection.
   */
  lemma WriterStep(s: State, a: Action)
    requires LockInv(s) && Enabled(s, a)
    ensures a.Lock? ==> WriterPc(Do(s, a)).Rechecking? || WriterPc(Do(s, a)).Closing?
    ensures a.Unlock? ==> WriterPc(Do(s, a)).Idle?
    ensures a.CallGet? || a.CallClose? || a.RLock? || a.Read? || a.RUnlock? ==> WriterPc(Do(s, a)) == WriterPc(s)
    ensures a.Recheck? || a.DialOk? || a.DialFails? || a.Insert? || a.CloseOne? ==>
              a.t < |s.threads| && WriterPc(s) == s.threads[a.t] && WriterPc(Do(s, a)) == Do(s, a).threads[a.t]
  {
  }

  lemma ApartStep(s: State, a: Action)
    requires LockInv(s) && ApartInv(s) && Enabled(s, a)
    ensures ApartInv(Do(s, a))
  {
    hide LockInv, ApartInv, WriterPc, Do, Enabled;
    if a.DialOk? || a.Insert? || a.CloseOne? {
      ApartConnStep(s, a);
    } else {
      ApartControlStep(s, a);
    }
  }

  /** Steps that create a connection or move one. */
  lemma ApartConnStep(s: State, a: Action)
    requires LockInv(s) && ApartInv(s) && Enabled(s, a)
    requires a.DialOk? || a.Insert? || a.CloseOne?
    ensures ApartInv(Do(s, a))
  {
    hide LockInv, WriterPc;
    WriterStep(s, a);
  }

  /** Steps that leave all connections where they are. */
  lemma ApartControlStep(s: State, a: Action)
    requires LockInv(s) && ApartInv(s) && Enabled(s, a)
    requires !a.DialOk? && !a.Insert? && !a.CloseOne?
    ensures ApartInv(Do(s, a))
  {
    hide LockInv, WriterPc;
    WriterStep(s, a);
  }

  /** Which connections a step makes live, and which it takes away. */
  lemma LiveStep(s: State, a: Action, key: Key, conn: Conn)
    requires LockInv(s) && ApartInv(s) && Enabled(s, a)
    ensures var t := Do(s, a);
            && (a.CloseOne? ==> (Live(t, key, conn) || conn in t.closed <==> Live(s, key, conn) || conn in t.closed))
            && a.t < |s.threads| && (a.DialOk? ==> s.threads[a.t].Dialing?)
            && (a.DialOk? ==> t.next == s.next + 1) && (!a.DialOk? ==> t.next == s.next)
            && s.closed <= t.closed
            && (a.DialOk? ==>
                (Live(t, key, conn) <==> Live(s, key, conn) || (key == s.threads[a.t].key && conn == s.next)))
            && (!a.DialOk? && !a.CloseOne? ==> (Live(t, key, conn) <==> Live(s, key, conn)))
            && (a.DialOk? ==> WriterPc(s).Dialing? && WriterPc(s) == s.threads[a.t])
            && (a.Lock? || a.Unlock? || WriterPc(t).Closing? == WriterPc(s).Closing?)
            && (a.Lock? ==> !WriterPc(s).Closing? && (WriterPc(t).Closing? <==> t.period == s.period + 1))
            && (a.Unlock? && WriterPc(s).Closing? ==> !Live(s, key, conn))
            && (a.CloseOne? || (a.Unlock? && s.threads[a.t].Closing?) ==> WriterPc(s).Closing?)
            && t.dials == (if a.DialOk? then s.dials + [Link(s.period, s.threads[a.t].key, s.next)] else s.dials)
            && t.period == (if a.Lock? && WriterPc(t).Closing? then s.period + 1 else s.period)
            && (a.Unlock? ==> !WriterPc(t).Closing?)
  {
    LockStep(s, a);
  }

  lemma KeptStep(s: State, a: Action)
    requires LockInv(s) && ApartInv(s) && KeptInv(s) && Enabled(s, a)
    ensures KeptInv(Do(s, a))
  {
    hide LockInv, ApartInv, Do, Live, Enabled, WriterPc;
    var t := Do(s, a);
    LiveStep(s, a, "", 0);
    forall conn: Conn | conn < t.next ensures conn in t.closed || exists key :: Live(t, key, conn) {
      if conn == s.next {
        LiveStep(s, a, s.threads[a.t].key, conn);
      } else if conn !in s.closed {
        var key :| Live(s, key, conn);
        LiveStep(s, a, key, conn);
      }
    }
  }

  lemma DialsStep(s: State, a: Action)
    requires LockInv(s) && DataInv(s) && DialsInv(s) && Enabled(s, a)
    ensures DialsInv(Do(s, a))
  {
    hide LockInv, ApartInv, KeptInv, Do, Live, Enabled, WriterPc;
    var t := Do(s, a);
    forall key, conn
      ensures !WriterPc(t).Closing? && Live(t, key, conn) ==> Link(t.period, key, conn) in t.dials
    {
      LiveStep(s, a, key, conn);
    }
    forall i | 0 <= i < |t.dials|
      ensures t.dials[i].period <= t.period
      ensures t.dials[i].period == t.period ==> !WriterPc(t).Closing? && Live(t, t.dials[i].key, t.dials[i].conn)
    {
      LiveStep(s, a, t.dials[i].key, t.dials[i].conn);
    }
    if a.DialOk? {
      NothingDialedYet(s, a);
    }
    LiveStep(s, a, "", 0);
  }

  /** A thread dials only if nothing has been dialed for its key in this period. */
  lemma NothingDialedYet(s: State, a: Action)
    requires LockInv(s) && DataInv(s) && DialsInv(s) && Enabled(s, a) && a.DialOk?
    ensures forall i | 0 <= i < |s.dials| && s.dials[i].period == s.period :: s.dials[i].key != s.threads[a.t].key
  {
  }

  /** An answer is given only for a live connection, which was dialed in this period. */
  lemma AnswerWasDialed(s: State, a: Action)
    requires Inv(s) && Enabled(s, a)
    ensures forall link | link in Do(s, a).answers :: link in s.answers || link in s.dials
    ensures s.answers <= Do(s, a).answers && s.dials <= Do(s, a).dials
  {
    var pc := s.threads[a.t];
    if a.Read? || a.Recheck? {
      assert pc.key in s.connMap ==> Live(s, pc.key, s.connMap[pc.key]);
    } else if a.Insert? {
      assert Live(s, pc.key, pc.conn);
    }
    hide DataInv, Live;
  }

  lemma AnswersStep(s: State, a: Action)
    requires Inv(s) && Enabled(s, a)
    ensures AnswersInv(Do(s, a))
  {
    hide LockInv, DataInv, DialsInv;
    AnswerWasDialed(s, a);
  }

  lemma StepInv(s: State, a: Action)
    requires Inv(s) && Enabled(s, a)
    ensures Inv(Do(s, a))
  {
    hide LockInv, ApartInv, KeptInv, DialsInv, AnswersInv, Do, Enabled;
    LockStep(s, a);
    ApartStep(s, a);
    KeptStep(s, a);
    DialsStep(s, a);
    AnswersStep(s, a);
  }

  // ---- Refinement of the atomic operations ----

  datatype Abs = Abs(pool: map<Key, Conn>, closed: set<Conn>)

  datatype AbsOp = GetOp(key: Key, dial: Option<Conn>, result: Option<Conn>) | CloseOp | NoOp

  /** A close in progress counts as done. */
  function AbsOf(s: State): Abs {
    if WriterPc(s).Closing? then Abs(map[], s.closed + s.connMap.Values) else Abs(s.connMap, s.closed)
  }

  /**
    The atomic operation that a step completes: a lookup that hits, a dial that fails, an insertion, or the start of a
    close.
   */
  function Effect(s: State, a: Action): AbsOp
    requires Enabled(s, a)
  {
    var pc := s.threads[a.t];
    match a
    case Read(_) => if pc.key in s.connMap then GetOp(pc.key, None, Some(s.connMap[pc.key])) else NoOp
    case Recheck(_) => if pc.key in s.connMap then GetOp(pc.key, None, Some(s.connMap[pc.key])) else NoOp
    case DialFails(_) => GetOp(pc.key, None, None)
    case Insert(_) => GetOp(pc.key, Some(pc.conn), Some(pc.conn))
    case Lock(_) => if pc.WantClose? then CloseOp else NoOp
    case _ => NoOp
  }

  ghost predicate AbsStep(x: Abs, op: AbsOp, y: Abs) {
    match op
    case GetOp(key, dial, result) => (result, y.pool) == AtomicGet(x.pool, key, dial) && y.closed == x.closed
    case CloseOp => y == Abs(map[], x.closed + x.pool.Values)
    case NoOp => x == y
  }

  /** Every step of every thread acts as one atomic Get or Close, or changes nothing that a caller could see. */
  lemma Refines(s: State, a: Action)
    requires Inv(s) && Enabled(s, a)
    ensures AbsStep(AbsOf(s), Effect(s, a), AbsOf(Do(s, a)))
  {
    hide LockInv, ApartInv, AbsStep, AbsOf, Effect, Do, Enabled;
    if a.CloseOne? || a.Lock? || a.Unlock? {
      RefinesClose(s, a);
    } else {
      RefinesGet(s, a);
    }
  }

  lemma RefinesClose(s: State, a: Action)
    requires Inv(s) && Enabled(s, a)
    requires a.CloseOne? || a.Lock? || a.Unlock?
    ensures AbsStep(AbsOf(s), Effect(s, a), AbsOf(Do(s, a)))
  {
    hide LockInv, DataInv, DialsInv, AnswersInv, WriterPc;
    WriterStep(s, a);
    NoCloseBeside(s, a);
    if a.CloseOne? {
      ValuesOfRest(s.connMap, a.key);
    }
  }

  lemma RefinesGet(s: State, a: Action)
    requires Inv(s) && Enabled(s, a)
    requires !a.CloseOne? && !a.Lock? && !a.Unlock?
    ensures AbsStep(AbsOf(s), Effect(s, a), AbsOf(Do(s, a)))
  {
    hide LockInv, KeptInv, DialsInv, AnswersInv, WriterPc;
    WriterStep(s, a);
    NoCloseBeside(s, a);
  }

  /** Nobody reads, or enters the write section, while connections are being closed. */
  lemma NoCloseBeside(s: State, a: Action)
    requires LockInv(s) && Enabled(s, a)
    ensures a.Read? || a.Lock? ==> WriterPc(s).Idle?
    ensures a.Lock? || a.Unlock? ==> a.t < |s.threads|
    ensures a.Lock? ==> WriterPc(Do(s, a)) == Do(s, a).threads[a.t]
    ensures a.Unlock? ==> WriterPc(s) == s.threads[a.t]
  {
  }

  lemma ValuesOfRest(m: map<Key, Conn>, key: Key)
    requires key in m
    ensures m.Values == (m - {key}).Values + {m[key]}
  {
    forall v | v in m.Values ensures v in (m - {key}).Values + {m[key]} {
      var k :| k in m && m[k] == v;
      assert k != key ==> k in m - {key} && (m - {key})[k] == v;
    }
  }

  // ---- Runs ----

  ghost predicate IsRun(states: seq<State>, actions: seq<Action>, n: nat) {
    && |states| == |actions| + 1
    && states[0] == Init(n)
    && forall k | 0 <= k < |actions| :: Enabled(states[k], actions[k]) && states[k + 1] == Do(states[k], actions[k])
  }

  lemma {:induction false} RunInv(states: seq<State>, actions: seq<Action>, n: nat, k: nat)
    requires IsRun(states, actions, n) && k < |states|
    ensures Inv(states[k])
  {
    if k == 0 {
      InitInv(n);
    } else {
      RunInv(states, actions, n, k - 1);
      StepInv(states[k - 1], actions[k - 1]);
    }
  }

  /** A run is a run of the atomic pool: it starts empty, and every step is an atomic operation or invisible. */
  lemma RunRefines(states: seq<State>, actions: seq<Action>, n: nat)
    requires IsRun(states, actions, n)
    ensures AbsOf(states[0]) == Abs(map[], {})
    ensures forall k | 0 <= k < |actions| ::
            AbsStep(AbsOf(states[k]), Effect(states[k], actions[k]), AbsOf(states[k + 1]))
  {
    hide AbsStep, Effect, AbsOf, Do, Enabled, Inv;
    assert AbsOf(states[0]) == Abs(map[], {}) by {
      NothingAtFirst(n);
    }
    forall k | 0 <= k < |actions|
      ensures AbsStep(AbsOf(states[k]), Effect(states[k], actions[k]), AbsOf(states[k + 1]))
    {
      RunInv(states, actions, n, k);
      Refines(states[k], actions[k]);
    }
  }

  lemma NothingAtFirst(n: nat)
    ensures AbsOf(Init(n)) == Abs(map[], {})
  {
  }

  // ---- One operation per call ----

  /** The operations that thread t completes in the steps from i up to j. */
  ghost function Operations(states: seq<State>, actions: seq<Action>, n: nat, t: nat, i: nat, j: nat): seq<AbsOp>
    requires IsRun(states, actions, n) && i <= j <= |actions|
  {
    if i == j then []
    else
      var before, op := Operations(states, actions, n, t, i, j - 1), Effect(states[j - 1], actions[j - 1]);
      if actions[j - 1].t == t && op != NoOp then before + [op] else before
  }

  /** From step i on, thread t does not get back to its caller before step j. */
  ghost predicate Inside(states: seq<State>, actions: seq<Action>, t: nat, i: nat, j: nat) {
    j < |states| && forall k | i < k <= j :: t < |states[k].threads| && !states[k].threads[t].Idle?
  }

  /** The connection that a Get returns with, or none. */
  function Answer(pc: Pc): Option<Conn> {
    match pc
    case Hit(link) => Some(link.conn)
    case Leaving(Some(link)) => Some(link.conn)
    case _ => None
  }

  /** How far a call has come: before its operation, or behind it with the operation's result in hand. */
  ghost predicate Progress(call: Action, pc: Pc, ops: seq<AbsOp>) {
    match call
    case CallGet(_, key) =>
      if pc.Hit? || pc.Leaving? then |ops| == 1 && ops[0].GetOp? && ops[0].key == key && ops[0].result == Answer(pc)
      else ops == [] && (pc == WantRead(key) || pc == Reading(key) || pc == Missed(key) || pc == WantWrite(key)
                         || pc == Rechecking(key) || pc == Dialing(key) || (pc.Dialed? && pc.key == key))
    case CallClose(_) => if pc.Closing? then ops == [CloseOp] else pc.WantClose? && ops == []
    case _ => false
  }

  lemma ProgressStep(call: Action, s: State, a: Action, ops: seq<AbsOp>)
    requires Enabled(s, a) && Progress(call, s.threads[a.t], ops) && !Do(s, a).threads[a.t].Idle?
    ensures Progress(call, Do(s, a).threads[a.t], if Effect(s, a) != NoOp then ops + [Effect(s, a)] else ops)
  {
  }

  lemma OthersStayPut(s: State, a: Action, t: nat)
    requires Enabled(s, a) && t != a.t && t < |s.threads|
    ensures t < |Do(s, a).threads| && Do(s, a).threads[t] == s.threads[t]
  {
  }

  lemma {:induction false} CallProgresses(states: seq<State>, actions: seq<Action>, n: nat, i: nat, j: nat)
    requires IsRun(states, actions, n) && i < j <= |actions|
    requires actions[i].CallGet? || actions[i].CallClose?
    requires Inside(states, actions, actions[i].t, i, j)
    ensures Progress(actions[i], states[j].threads[actions[i].t], Operations(states, actions, n, actions[i].t, i, j))
  {
    hide Progress, Effect, Do, Enabled;
    var t := actions[i].t;
    if j == i + 1 {
      assert Operations(states, actions, n, t, i, i) == [];
      CallBegins(states[i], actions[i]);
    } else {
      CallProgresses(states, actions, n, i, j - 1);
      var ops := Operations(states, actions, n, t, i, j - 1);
      assert states[j] == Do(states[j - 1], actions[j - 1]) && !states[j].threads[t].Idle?;
      if actions[j - 1].t == t {
        ProgressStep(actions[i], states[j - 1], actions[j - 1], ops);
      } else {
        OthersStayPut(states[j - 1], actions[j - 1], t);
      }
    }
  }

  lemma CallBegins(s: State, a: Action)
    requires Enabled(s, a) && (a.CallGet? || a.CallClose?)
    ensures Effect(s, a) == NoOp && Progress(a, Do(s, a).threads[a.t], [])
  {
  }

  lemma ReturnIsInvisible(s: State, a: Action)
    requires Enabled(s, a) && Do(s, a).threads[a.t].Idle?
    ensures Effect(s, a) == NoOp
    ensures s.threads[a.t].Hit? || s.threads[a.t].Leaving? || s.threads[a.t].Closing?
  {
  }

  /**
    In every interleaving, between a call and its return the thread completes exactly one atomic operation: a Get of the
    key asked for, with the connection that the caller is given as its result; or a Close.
   */
  lemma OneOperationPerCall(states: seq<State>, actions: seq<Action>, n: nat, i: nat, j: nat)
    requires IsRun(states, actions, n) && i < j < |actions|
    requires actions[i].CallGet? || actions[i].CallClose?
    requires Inside(states, actions, actions[i].t, i, j)
    requires actions[j].t == actions[i].t && states[j + 1].threads[actions[i].t].Idle?
    ensures var ops := Operations(states, actions, n, actions[i].t, i, j + 1);
            && (actions[i].CallGet? ==>
                  && |ops| == 1 && ops[0].GetOp? && ops[0].key == actions[i].key
                  && ops[0].result == Answer(states[j].threads[actions[i].t]))
            && (actions[i].CallClose? ==> ops == [CloseOp])
  {
    hide Effect, Do, Enabled;
    CallProgresses(states, actions, n, i, j);
    ReturnIsInvisible(states[j], actions[j]);
  }

  /** In every interleaving: at most one dial per key between closes, and one answer to all callers. */
  lemma OneConnectionPerPeriod(states: seq<State>, actions: seq<Action>, n: nat, k: nat)
    requires IsRun(states, actions, n) && k < |states|
    ensures var s := states[k];
            && (forall i, j | 0 <= i < |s.dials| && 0 <= j < |s.dials| ::
                  s.dials[i].period == s.dials[j].period && s.dials[i].key == s.dials[j].key ==> i == j)
            && (forall x, y | x in s.answers && y in s.answers :: x.period == y.period && x.key == y.key ==>
                x.conn == y.conn)
            && (forall t | 0 <= t < |s.threads| && s.threads[t].Hit? :: s.threads[t].answer in s.answers)
            && (forall t | 0 <= t < |s.threads| && s.threads[t].Leaving? && s.threads[t].found.Some? ::
                s.threads[t].found.value in s.answers)
  {
    RunInv(states, actions, n, k);
  }

  /**
    In every interleaving: a connection that was dialed is in the map, or about to be inserted, or closed; never two of
    these.
   */
  lemma NoConnectionLost(states: seq<State>, actions: seq<Action>, n: nat, k: nat, conn: Conn)
    requires IsRun(states, actions, n) && k < |states|
    ensures conn < states[k].next <==> conn in states[k].closed || exists key :: Live(states[k], key, conn)
    ensures conn in states[k].closed ==> !exists key :: Live(states[k], key, conn)
    ensures forall key, other | Live(states[k], key, conn) && Live(states[k], other, conn) :: key == other
  {
    RunInv(states, actions, n, k);
  }

  // ---- One thread alone ----

  /** The actions can be taken one after the other, and lead from one state to the other. */
  ghost predicate Leads(s: State, actions: seq<Action>, t: State)
    decreases |actions|
  {
    if actions == [] then s == t else Enabled(s, actions[0]) && Leads(Do(s, actions[0]), actions[1..], t)
  }

  lemma LeadsOn(s: State, a: Action, actions: seq<Action>, t: State)
    requires Enabled(s, a) && Leads(Do(s, a), actions, t)
    ensures Leads(s, [a] + actions, t)
  {
    assert ([a] + actions)[1..] == actions;
  }

  lemma {:induction false} LeadsThrough(s: State, first: seq<Action>, t: State, second: seq<Action>, u: State)
    requires Leads(s, first, t) && Leads(t, second, u)
    ensures Leads(s, first + second, u)
    decreases |first|
  {
    if first == [] {
      assert first + second == second;
    } else {
      LeadsThrough(Do(s, first[0]), first[1..], t, second, u);
      assert (first + second)[1..] == first[1..] + second;
    }
  }

  /** The section under the read lock. */
  function LookupActions(t: nat, key: Key): seq<Action> {
    [CallGet(t, key), RLock(t), Read(t), RUnlock(t)]
  }

  /** The section under the write lock, for a connection that is missing. */
  function DialActions(t: nat, succeeds: bool): seq<Action> {
    [Lock(t), Recheck(t)] + (if succeeds then [DialOk(t), Insert(t)] else [DialFails(t)]) + [Unlock(t)]
  }

  ghost predicate Alone(s: State, t: nat) {
    t < |s.threads| && s.threads[t].Idle? && s.readers == {} && s.writer == None
  }

  /** A lookup that hits: the thread is back, with the answer given and the pool as it was. */
  lemma LookupHits(s: State, t: nat, key: Key)
    requires Alone(s, t) && key in s.connMap
    ensures Leads(s, LookupActions(t, key), s.(answers := s.answers + [Link(s.period, key, s.connMap[key])]))
  {
    var s1 := Do(s, CallGet(t, key));
    var s2 := Do(s1, RLock(t));
    var s3 := Do(s2, Read(t));
    var s4 := Do(s3, RUnlock(t));
    assert s4.threads == s.threads && s4.readers == s.readers;
    LeadsOn(s3, RUnlock(t), [], s4);
    LeadsOn(s2, Read(t), [RUnlock(t)], s4);
    LeadsOn(s1, RLock(t), [Read(t), RUnlock(t)], s4);
    LeadsOn(s, CallGet(t, key), [RLock(t), Read(t), RUnlock(t)], s4);
    assert [CallGet(t, key)] + [RLock(t), Read(t), RUnlock(t)] == LookupActions(t, key);
  }

  lemma LookupMisses(s: State, t: nat, key: Key)
    requires Alone(s, t) && key !in s.connMap
    ensures Leads(s, LookupActions(t, key), Goto(s, t, WantWrite(key)))
  {
    var s1 := Do(s, CallGet(t, key));
    var s2 := Do(s1, RLock(t));
    var s3 := Do(s2, Read(t));
    var s4 := Do(s3, RUnlock(t));
    assert s4.threads == s.threads[t := WantWrite(key)] && s4.readers == s.readers;
    LeadsOn(s3, RUnlock(t), [], s4);
    LeadsOn(s2, Read(t), [RUnlock(t)], s4);
    LeadsOn(s1, RLock(t), [Read(t), RUnlock(t)], s4);
    LeadsOn(s, CallGet(t, key), [RLock(t), Read(t), RUnlock(t)], s4);
    assert [CallGet(t, key)] + [RLock(t), Read(t), RUnlock(t)] == LookupActions(t, key);
  }

  /** What a missing connection leaves behind: the dialed one, numbered, pooled and handed out; or nothing. */
  function AfterDial(s: State, key: Key, succeeds: bool): State {
    if succeeds then
      var link := Link(s.period, key, s.next);
      s.(connMap := s.connMap[key := s.next], next := s.next + 1, dials := s.dials + [link],
         answers := s.answers + [link])
    else s
  }

  lemma DialSucceeds(s: State, t: nat, key: Key)
    requires Alone(s, t) && key !in s.connMap
    ensures Leads(Goto(s, t, WantWrite(key)), DialActions(t, true), AfterDial(s, key, true))
  {
    hide Leads;
    var s0 := Goto(s, t, WantWrite(key));
    var s1 := Do(s0, Lock(t));
    var s2 := Do(s1, Recheck(t));
    var s3 := Do(s2, DialOk(t));
    var s4 := Do(s3, Insert(t));
    var s5 := Do(s4, Unlock(t));
    assert s5.threads == s.threads;
    NoStep(s5);
    LeadsOn(s4, Unlock(t), [], s5);
    assert [Unlock(t)] + [] == [Unlock(t)];
    LeadsOn(s3, Insert(t), [Unlock(t)], s5);
    LeadsOn(s2, DialOk(t), [Insert(t), Unlock(t)], s5);
    LeadsOn(s1, Recheck(t), [DialOk(t), Insert(t), Unlock(t)], s5);
    LeadsOn(s0, Lock(t), [Recheck(t), DialOk(t), Insert(t), Unlock(t)], s5);
    assert [Lock(t)] + [Recheck(t), DialOk(t), Insert(t), Unlock(t)] == DialActions(t, true);
  }

  lemma DialIsRefused(s: State, t: nat, key: Key)
    requires Alone(s, t) && key !in s.connMap
    ensures Leads(Goto(s, t, WantWrite(key)), DialActions(t, false), s)
  {
    hide Leads;
    var s0 := Goto(s, t, WantWrite(key));
    var s1 := Do(s0, Lock(t));
    var s2 := Do(s1, Recheck(t));
    var s3 := Do(s2, DialFails(t));
    var s4 := Do(s3, Unlock(t));
    assert s4.threads == s.threads;
    NoStep(s4);
    LeadsOn(s3, Unlock(t), [], s4);
    assert [Unlock(t)] + [] == [Unlock(t)];
    LeadsOn(s2, DialFails(t), [Unlock(t)], s4);
    LeadsOn(s1, Recheck(t), [DialFails(t), Unlock(t)], s4);
    LeadsOn(s0, Lock(t), [Recheck(t), DialFails(t), Unlock(t)], s4);
    assert [Lock(t)] + [Recheck(t), DialFails(t), Unlock(t)] == DialActions(t, false);
  }

  lemma NoStep(s: State)
    ensures Leads(s, [], s)
  {
  }

  /** The steps of a thread that nobody disturbs: the pooled connection without a dial, or the dialed one, pooled. */
  lemma GetAlone(s: State, t: nat, key: Key, succeeds: bool)
    requires Alone(s, t)
    ensures key in s.connMap ==>
              Leads(s, LookupActions(t, key), s.(answers := s.answers + [Link(s.period, key, s.connMap[key])]))
    ensures key !in s.connMap ==>
              Leads(s, LookupActions(t, key) + DialActions(t, succeeds), AfterDial(s, key, succeeds))
  {
    hide Leads, LookupActions, DialActions, AfterDial;
    if key in s.connMap {
      LookupHits(s, t, key);
    } else {
      LookupMisses(s, t, key);
      if succeeds {
        DialSucceeds(s, t, key);
      } else {
        DialIsRefused(s, t, key);
        assert AfterDial(s, key, false) == s by {
          NothingDialed(s, key);
        }
      }
      LeadsThrough(s, LookupActions(t, key), Goto(s, t, WantWrite(key)),
                   DialActions(t, succeeds), AfterDial(s, key, succeeds));
    }
  }

  lemma NothingDialed(s: State, key: Key)
    ensures AfterDial(s, key, false) == s
  {
  }
}
