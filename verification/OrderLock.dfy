/** The per-order lock: a keyed mutex whose entries are reference counted and
    removed by the last user.  Any number of goroutines run LockOrder and
    UnlockOrder on any trade numbers; every statement of the two functions is one
    atomic step of the relation below. */
module OrderLock {
  import opened Basics

  type Thread = nat
  type MutexId = nat

  /** refCountedMutex.  `holder` records who locked `mu`; no step ever tests whose it is. */
  datatype Rcm = Rcm(holder: Option<Thread>, refCount: int)

  /** Where a goroutine stands; the constructor names the statement it runs next. */
  datatype Pc =
    | Idle
    // LockOrder
    | LockCreate(trade: string)
    | Load(trade: string)
    | StoreNew(trade: string)
    | Increment(trade: string, m: MutexId)
    | UnlockCreate(trade: string, m: MutexId)
    | LockMutex(trade: string, m: MutexId)
    // between the two calls; `m` only serves the invariant, UnlockOrder looks it up again
    | Inside(trade: string, m: MutexId)
    // UnlockOrder
    | UnlockMutex(trade: string, m: MutexId)
    | RelockCreate(trade: string, m: MutexId)
    | Decrement(trade: string, m: MutexId)
    | MaybeDelete(trade: string, m: MutexId)
    | ReunlockCreate(trade: string, m: MutexId)
    // Unlock of a mutex that is not locked is a fatal error in Go
    | Crashed

  /** createLock, the sync.Map, the allocated mutex objects and the goroutines. */
  datatype State = State(
    createLock: Option<Thread>,
    orderLocks: map<string, MutexId>,
    heap: map<MutexId, Rcm>,
    threads: map<Thread, Pc>)

  ghost predicate Init(s: State) {
    && s.createLock == None
    && s.orderLocks == map[]
    && s.heap == map[]
    && forall t :: t in s.threads ==> s.threads[t] == Idle
  }

  function Goto(s: State, t: Thread, pc: Pc): State {
    s.(threads := s.threads[t := pc])
  }

  /** One atomic step of goroutine `t`. */
  ghost predicate Next(s: State, s': State, t: Thread) {
    t in s.threads &&
    match s.threads[t]
    case Idle => exists trade :: s' == Goto(s, t, LockCreate(trade))
    case LockCreate(trade) =>
      s.createLock == None && s' == Goto(s, t, Load(trade)).(createLock := Some(t))
    case Load(trade) =>
      if trade in s.orderLocks
      then s' == Goto(s, t, Increment(trade, s.orderLocks[trade]))
      else s' == Goto(s, t, StoreNew(trade))
    case StoreNew(trade) =>
      exists m :: m !in s.heap &&
        s' == Goto(s, t, Increment(trade, m))
              .(heap := s.heap[m := Rcm(None, 0)], orderLocks := s.orderLocks[trade := m])
    case Increment(trade, m) =>
      && m in s.heap
      && s' == Goto(s, t, UnlockCreate(trade, m))
               .(heap := s.heap[m := s.heap[m].(refCount := s.heap[m].refCount + 1)])
    case UnlockCreate(trade, m) =>
      if s.createLock == None then s' == Goto(s, t, Crashed)
      else s' == Goto(s, t, LockMutex(trade, m)).(createLock := None)
    case LockMutex(trade, m) =>
      && m in s.heap && s.heap[m].holder == None
      && s' == Goto(s, t, Inside(trade, m)).(heap := s.heap[m := s.heap[m].(holder := Some(t))])
    case Inside(trade, _) =>
      if trade in s.orderLocks
      then s' == Goto(s, t, UnlockMutex(trade, s.orderLocks[trade]))
      else s' == Goto(s, t, Idle)
    case UnlockMutex(trade, m) =>
      && m in s.heap
      && if s.heap[m].holder == None then s' == Goto(s, t, Crashed)
         else s' == Goto(s, t, RelockCreate(trade, m)).(heap := s.heap[m := s.heap[m].(holder := None)])
    case RelockCreate(trade, m) =>
      s.createLock == None && s' == Goto(s, t, Decrement(trade, m)).(createLock := Some(t))
    case Decrement(trade, m) =>
      && m in s.heap
      && s' == Goto(s, t, MaybeDelete(trade, m))
               .(heap := s.heap[m := s.heap[m].(refCount := s.heap[m].refCount - 1)])
    case MaybeDelete(trade, m) =>
      && m in s.heap
      && if s.heap[m].refCount == 0
         then s' == Goto(s, t, ReunlockCreate(trade, m)).(orderLocks := s.orderLocks - {trade})
         else s' == Goto(s, t, ReunlockCreate(trade, m))
    case ReunlockCreate(_, _) =>
      if s.createLock == None then s' == Goto(s, t, Crashed)
      else s' == Goto(s, t, Idle).(createLock := None)
    case Crashed => false
  }

  ghost predicate Step(s: State, s': State) {
    exists t :: Next(s, s', t)
  }

  ghost predicate Run(run: seq<State>) {
    && |run| > 0 && Init(run[0])
    && forall i :: 0 <= i < |run| - 1 ==> Step(run[i], run[i + 1])
  }

  // ---------- what the program points mean ----------

  predicate HoldsCreate(pc: Pc) {
    || pc.Load? || pc.StoreNew? || pc.Increment? || pc.UnlockCreate?
    || pc.Decrement? || pc.MaybeDelete? || pc.ReunlockCreate?
  }

  /** LockOrder(trade) has returned and UnlockOrder(trade) has not released the mutex. */
  predicate Between(pc: Pc, trade: string) {
    (pc.Inside? || pc.UnlockMutex?) && pc.trade == trade
  }

  /** Registered in the reference count of `m`: waits for it, holds it, or is about to deregister. */
  predicate Counted(pc: Pc, m: MutexId) {
    && (pc.UnlockCreate? || pc.LockMutex? || pc.Inside? || pc.UnlockMutex? || pc.RelockCreate? || pc.Decrement?)
    && pc.m == m
  }

  predicate HasMutex(pc: Pc, m: MutexId) {
    (pc.Inside? || pc.UnlockMutex?) && pc.m == m
  }

  /** Works with a mutex that must still be the one in the map. */
  predicate Attached(pc: Pc) {
    || pc.Increment? || pc.UnlockCreate? || pc.LockMutex? || pc.Inside? || pc.UnlockMutex?
    || pc.RelockCreate? || pc.Decrement? || pc.MaybeDelete?
  }

  ghost function Users(threads: map<Thread, Pc>, m: MutexId): set<Thread> {
    set t | t in threads && Counted(threads[t], m)
  }

  // ---------- the inductive invariant ----------

  ghost predicate CreateLockInv(s: State) {
    forall t :: s.createLock == Some(t) <==> (t in s.threads && HoldsCreate(s.threads[t]))
  }

  ghost predicate HolderInv(s: State) {
    forall m, t :: m in s.heap ==>
      (s.heap[m].holder == Some(t) <==>
       (t in s.threads && HasMutex(s.threads[t], m)))
  }

  ghost predicate CountInv(s: State) {
    forall m :: m in s.heap ==> s.heap[m].refCount == |Users(s.threads, m)|
  }

  ghost predicate MapInv(s: State) {
    && (forall trade :: trade in s.orderLocks ==> s.orderLocks[trade] in s.heap)
    && (forall t1, t2 :: t1 in s.orderLocks && t2 in s.orderLocks && s.orderLocks[t1] == s.orderLocks[t2] ==> t1 == t2)
  }

  ghost predicate ThreadInv(s: State) {
    forall t :: t in s.threads ==>
      var pc := s.threads[t];
      && !pc.Crashed?
      && (pc.StoreNew? ==> pc.trade !in s.orderLocks)
      && (Attached(pc) ==> pc.trade in s.orderLocks && s.orderLocks[pc.trade] == pc.m)
  }

  /** An entry nobody is registered with exists only under createLock, in passing. */
  ghost predicate NoGarbage(s: State) {
    forall trade :: trade in s.orderLocks && s.orderLocks[trade] in s.heap ==>
      || s.heap[s.orderLocks[trade]].refCount > 0
      || (&& s.createLock.Some? && s.createLock.value in s.threads
          && var pc := s.threads[s.createLock.value];
          (pc.Increment? || pc.MaybeDelete?) && pc.trade == trade)
  }

  ghost predicate Inv(s: State) {
    CreateLockInv(s) && HolderInv(s) && CountInv(s) && MapInv(s) && ThreadInv(s) && NoGarbage(s)
  }

  /** How one goroutine's move changes the set of users of a mutex. */
  lemma UsersAfter(threads: map<Thread, Pc>, t: Thread, pc: Pc, m: MutexId)
    requires t in threads
    ensures var before, after := Users(threads, m), Users(threads[t := pc], m);
      && after == (if Counted(pc, m) then before + {t} else before - {t})
      && |after| == |before| + (if Counted(pc, m) then 1 else 0) - (if Counted(threads[t], m) then 1 else 0)
  {
    var before, after := Users(threads, m), Users(threads[t := pc], m);
    assert after == if Counted(pc, m) then before + {t} else before - {t};
    assert t in before <==> Counted(threads[t], m);
  }

  lemma MovesOnly(s: State, s': State, t: Thread)
    requires Next(s, s', t)
    ensures t in s'.threads && s'.threads == s.threads[t := s'.threads[t]]
    ensures s'.threads[t] != s.threads[t]
    ensures s'.threads[t].Inside? ==> s.threads[t].LockMutex?
  {
  }

  lemma InvInitial(s: State)
    requires Init(s)
    ensures Inv(s)
  {
  }

  ghost predicate ThreadOk(s: State, t: Thread) {
    t in s.threads &&
    var pc := s.threads[t];
    && !pc.Crashed?
    && (pc.StoreNew? ==> pc.trade !in s.orderLocks)
    && (Attached(pc) ==> pc.trade in s.orderLocks && s.orderLocks[pc.trade] == pc.m)
  }

  /** The invariant seen from one goroutine. */
  ghost predicate Local(s: State, t: Thread) {
    ThreadOk(s, t) &&
    var pc := s.threads[t];
    && (HoldsCreate(pc) ==> s.createLock == Some(t))
    && (Attached(pc) ==> pc.m in s.heap)
    && (pc.Inside? || pc.UnlockMutex? ==> s.heap[pc.m].holder == Some(t))
  }

  lemma InvIsLocal(s: State, t: Thread)
    requires CreateLockInv(s) && HolderInv(s) && MapInv(s) && ThreadInv(s) && t in s.threads
    ensures Local(s, t)
  {
  }

  /** What any step of `t` does to the locks and counts, whatever statement it runs:
      the fields follow the program point. */
  ghost predicate CreateEffect(s: State, s': State, t: Thread) {
    && t in s.threads && t in s'.threads && s'.threads == s.threads[t := s'.threads[t]]
    && var pc, pc' := s.threads[t], s'.threads[t];
    && (HoldsCreate(pc') && !HoldsCreate(pc) ==> s.createLock == None)
    && s'.createLock == (if HoldsCreate(pc') then Some(t) else if HoldsCreate(pc) then None else s.createLock)
    && s.heap.Keys <= s'.heap.Keys
  }

  ghost predicate MutexEffect(s: State, s': State, t: Thread, m: MutexId) {
    t in s.threads && t in s'.threads &&
    (m in s'.heap ==>
      var pc, pc' := s.threads[t], s'.threads[t];
      var was := if m in s.heap then s.heap[m] else Rcm(None, 0);
      && (HasMutex(pc', m) && !HasMutex(pc, m) ==> was.holder == None)
      && s'.heap[m].holder == (if HasMutex(pc', m) then Some(t) else if HasMutex(pc, m) then None else was.holder)
      && s'.heap[m].refCount - (if Counted(pc', m) then 1 else 0) == was.refCount - (if Counted(pc, m) then 1 else 0))
  }

  ghost predicate LockEffect(s: State, s': State, t: Thread) {
    CreateEffect(s, s', t) && forall m :: MutexEffect(s, s', t, m)
  }

  lemma NextHasMutexEffect(s: State, s': State, t: Thread, m: MutexId)
    requires Local(s, t) && Next(s, s', t)
    ensures MutexEffect(s, s', t, m)
  {
  }

  lemma NextHasCreateEffect(s: State, s': State, t: Thread)
    requires Local(s, t) && Next(s, s', t)
    ensures CreateEffect(s, s', t)
  {
  }

  lemma NextHasLockEffect(s: State, s': State, t: Thread)
    requires Local(s, t) && Next(s, s', t)
    ensures LockEffect(s, s', t)
  {
    NextHasCreateEffect(s, s', t);
    forall m ensures MutexEffect(s, s', t, m) {
      NextHasMutexEffect(s, s', t, m);
    }
  }

  lemma CreateLockKept(s: State, s': State, t: Thread)
    requires CreateLockInv(s) && LockEffect(s, s', t)
    ensures CreateLockInv(s')
  {
  }

  lemma HolderKept(s: State, s': State, t: Thread)
    requires HolderInv(s) && MapInv(s) && ThreadInv(s) && LockEffect(s, s', t)
    ensures HolderInv(s')
  {
    forall m, u | m in s'.heap
      ensures s'.heap[m].holder == Some(u) <==> (u in s'.threads && HasMutex(s'.threads[u], m))
    {
      assert MutexEffect(s, s', t, m);
    }
  }

  lemma NoUsersYet(s: State, m: MutexId)
    requires MapInv(s) && ThreadInv(s) && m !in s.heap
    ensures Users(s.threads, m) == {}
  {
  }

  lemma CountKept(s: State, s': State, t: Thread)
    requires CountInv(s) && MapInv(s) && ThreadInv(s) && LockEffect(s, s', t)
    ensures CountInv(s')
  {
    forall m | m in s'.heap
      ensures s'.heap[m].refCount == |Users(s'.threads, m)|
    {
      if m !in s.heap {
        NoUsersYet(s, m);
      }
      UsersAfter(s.threads, t, s'.threads[t], m);
      assert MutexEffect(s, s', t, m);
    }
  }

  /** What a step does to the map: nothing, one new entry, or one entry removed. */
  ghost predicate MapEffect(s: State, s': State, t: Thread) {
    && t in s.threads && t in s'.threads
    && var pc, pc' := s.threads[t], s'.threads[t];
    || (s'.orderLocks == s.orderLocks && !pc.StoreNew?)
    || (pc.StoreNew? && pc'.Increment? && pc'.trade == pc.trade && pc'.m !in s.heap
        && s'.orderLocks == s.orderLocks[pc.trade := pc'.m] && pc'.m in s'.heap)
    || (pc.MaybeDelete? && pc.m in s.heap && s.heap[pc.m].refCount == 0 && !Attached(pc') && !pc'.StoreNew?
        && s'.orderLocks == s.orderLocks - {pc.trade})
  }

  lemma NextHasMapEffect(s: State, s': State, t: Thread)
    requires Next(s, s', t)
    ensures MapEffect(s, s', t)
  {
  }

  lemma MapKept(s: State, s': State, t: Thread)
    requires MapInv(s) && LockEffect(s, s', t) && MapEffect(s, s', t)
    ensures MapInv(s')
  {
  }

  lemma NobodyCounted(threads: map<Thread, Pc>, m: MutexId, u: Thread)
    requires |Users(threads, m)| == 0 && u in threads
    ensures !Counted(threads[u], m)
  {
    assert u !in Users(threads, m);
  }

  /** Deleting an entry nobody is counted for detaches no other goroutine. */
  lemma DeleteIsSafe(s: State, t: Thread, u: Thread)
    requires CreateLockInv(s) && CountInv(s) && MapInv(s) && ThreadInv(s)
    requires t in s.threads && s.threads[t].MaybeDelete? && s.heap[s.threads[t].m].refCount == 0
    requires u in s.threads && u != t && Attached(s.threads[u])
    ensures s.threads[u].trade != s.threads[t].trade
  {
    assert s.createLock == Some(t);
    NobodyCounted(s.threads, s.threads[t].m, u);
  }

  lemma OwnThreadKept(s: State, s': State, t: Thread)
    requires Local(s, t) && Next(s, s', t)
    ensures ThreadOk(s', t)
  {
  }

  lemma OtherThreadKept(s: State, s': State, t: Thread, u: Thread)
    requires CreateLockInv(s) && CountInv(s) && MapInv(s) && ThreadInv(s)
    requires LockEffect(s, s', t) && MapEffect(s, s', t)
    requires u in s.threads && u != t
    ensures ThreadOk(s', u)
  {
    if HoldsCreate(s.threads[t]) {
      assert s.createLock == Some(t);
      assert !HoldsCreate(s.threads[u]);
    }
    if s.threads[t].MaybeDelete? && s.heap[s.threads[t].m].refCount == 0 && Attached(s.threads[u]) {
      DeleteIsSafe(s, t, u);
    }
  }

  lemma ThreadKept(s: State, s': State, t: Thread)
    requires CreateLockInv(s) && CountInv(s) && MapInv(s) && ThreadInv(s) && Local(s, t) && Next(s, s', t)
    requires LockEffect(s, s', t) && MapEffect(s, s', t)
    ensures ThreadInv(s')
  {
    OwnThreadKept(s, s', t);
    forall u | u in s.threads && u != t
      ensures ThreadOk(s', u)
    {
      OtherThreadKept(s, s', t, u);
    }
    assert forall u :: u in s'.threads ==> ThreadOk(s', u);
  }

  /** An entry that loses its last user is passed to the step that deletes it. */
  lemma GarbageKept(s: State, s': State, t: Thread)
    requires Local(s, t) && MapInv(s) && NoGarbage(s) && Next(s, s', t)
    requires LockEffect(s, s', t) && MapEffect(s, s', t) && CountInv(s') && MapInv(s')
    ensures NoGarbage(s')
  {
    forall trade | trade in s'.orderLocks
      ensures Tended(s', trade)
    {
      if trade !in s.orderLocks {
        assert s'.threads[t].Increment?;
      } else {
        TendedKept(s, s', t, trade);
      }
    }
  }

  ghost predicate Tended(s: State, trade: string) {
    trade in s.orderLocks && s.orderLocks[trade] in s.heap &&
    (|| s.heap[s.orderLocks[trade]].refCount > 0
     || (&& s.createLock.Some? && s.createLock.value in s.threads
         && var pc := s.threads[s.createLock.value];
         (pc.Increment? || pc.MaybeDelete?) && pc.trade == trade))
  }

  lemma TendedKept(s: State, s': State, t: Thread, trade: string)
    requires Local(s, t) && MapInv(s) && CountInv(s') && Tended(s, trade) && Next(s, s', t)
    requires LockEffect(s, s', t) && MapEffect(s, s', t) && trade in s'.orderLocks
    ensures Tended(s', trade)
  {
    var m := s.orderLocks[trade];
    assert MutexEffect(s, s', t, m);
    assert s'.orderLocks[trade] == m;
    if Counted(s'.threads[t], m) {
      assert t in Users(s'.threads, m);
    }
  }

  lemma InvKept(s: State, s': State, t: Thread)
    requires Inv(s) && Next(s, s', t)
    ensures Inv(s')
  {
    InvIsLocal(s, t);
    NextHasLockEffect(s, s', t);
    NextHasMapEffect(s, s', t);
    CreateLockKept(s, s', t);
    HolderKept(s, s', t);
    CountKept(s, s', t);
    MapKept(s, s', t);
    ThreadKept(s, s', t);
    GarbageKept(s, s', t);
  }

  /** The invariant holds in every state of every run. */
  lemma {:induction false} InvAlways(run: seq<State>, i: nat)
    requires Run(run) && i < |run|
    ensures Inv(run[i])
  {
    if i == 0 {
      InvInitial(run[0]);
    } else {
      InvAlways(run, i - 1);
      assert Step(run[i - 1], run[i - 1 + 1]);
      var t :| Next(run[i - 1], run[i], t);
      InvKept(run[i - 1], run[i], t);
    }
  }

  // ---------- what callers rely on ----------

  /** At most one goroutine is between LockOrder(trade) and UnlockOrder(trade). */
  lemma MutualExclusion(run: seq<State>, i: nat, trade: string, t1: Thread, t2: Thread)
    requires Run(run) && i < |run|
    requires t1 in run[i].threads && Between(run[i].threads[t1], trade)
    requires t2 in run[i].threads && Between(run[i].threads[t2], trade)
    ensures t1 == t2
  {
    InvAlways(run, i);
    var s := run[i];
    assert s.heap[s.orderLocks[trade]].holder == Some(t1);
    assert s.heap[s.orderLocks[trade]].holder == Some(t2);
  }

  /** While a goroutine is registered for a trade, the map points at the very
      mutex it waits for or holds, and the count is the number of registered
      goroutines; so all of them share one mutex. */
  lemma EntryIsStable(run: seq<State>, i: nat, t: Thread, u: Thread)
    requires Run(run) && i < |run|
    requires t in run[i].threads && u in run[i].threads
    ensures var s := run[i]; var pc := s.threads[t];
      Attached(pc) ==>
        && pc.trade in s.orderLocks && s.orderLocks[pc.trade] == pc.m && pc.m in s.heap
        && s.heap[pc.m].refCount == |Users(s.threads, pc.m)|
        && (Attached(s.threads[u]) ==> (s.threads[u].trade == pc.trade <==> s.threads[u].m == pc.m))
  {
    InvAlways(run, i);
  }

  /** UnlockOrder never misses the entry, never unlocks a free mutex, and the
      mutex it finds without createLock is the one this goroutine locked. */
  lemma UnlockFindsOwnMutex(run: seq<State>, i: nat, t: Thread)
    requires Run(run) && i < |run| && t in run[i].threads
    ensures var s := run[i]; var pc := s.threads[t];
      && !pc.Crashed?
      && (pc.Inside? ==> pc.trade in s.orderLocks && s.orderLocks[pc.trade] == pc.m)
      && (pc.Inside? || pc.UnlockMutex? ==> pc.m in s.heap && s.heap[pc.m].holder == Some(t))
  {
    InvAlways(run, i);
  }

  /** No lock object outlives its users: with everyone idle the map is empty. */
  lemma QuietMeansEmpty(run: seq<State>, i: nat)
    requires Run(run) && i < |run|
    requires forall t :: t in run[i].threads ==> run[i].threads[t] == Idle
    ensures run[i].orderLocks == map[]
    ensures run[i].createLock == None
  {
    InvAlways(run, i);
    var s := run[i];
    forall m | m in s.heap
      ensures s.heap[m].refCount == 0
    {
      assert Users(s.threads, m) == {};
    }
    assert forall trade :: trade !in s.orderLocks;
  }

  /** The statements other than Lock run without waiting. */
  ghost predicate CanMove(s: State, t: Thread) {
    exists s' :: Next(s, s', t)
  }

  lemma NonWaitingMoves(s: State, t: Thread)
    requires Inv(s) && t in s.threads
    requires var pc := s.threads[t];
      || HoldsCreate(pc) || pc.Inside? || pc.UnlockMutex?
      || ((pc.LockCreate? || pc.RelockCreate?) && s.createLock == None)
      || (pc.LockMutex? && s.heap[pc.m].holder == None)
    ensures CanMove(s, t)
  {
    var pc := s.threads[t];
    match pc
    case LockCreate(trade) =>
      assert Next(s, Goto(s, t, Load(trade)).(createLock := Some(t)), t);
    case Load(trade) =>
      var pc' := if trade in s.orderLocks then Increment(trade, s.orderLocks[trade]) else StoreNew(trade);
      assert Next(s, Goto(s, t, pc'), t);
    case StoreNew(trade) =>
      var m := FreshId(s.heap.Keys);
      var u := Goto(s, t, Increment(trade, m));
      assert Next(s, u.(heap := s.heap[m := Rcm(None, 0)], orderLocks := s.orderLocks[trade := m]), t);
    case Increment(trade, m) =>
      var u := Goto(s, t, UnlockCreate(trade, m));
      assert Next(s, u.(heap := s.heap[m := s.heap[m].(refCount := s.heap[m].refCount + 1)]), t);
    case UnlockCreate(trade, m) =>
      assert Next(s, Goto(s, t, LockMutex(trade, m)).(createLock := None), t);
    case LockMutex(trade, m) =>
      assert Next(s, Goto(s, t, Inside(trade, m)).(heap := s.heap[m := s.heap[m].(holder := Some(t))]), t);
    case Inside(trade, _) =>
      assert Next(s, Goto(s, t, UnlockMutex(trade, s.orderLocks[trade])), t);
    case UnlockMutex(trade, m) =>
      assert Next(s, Goto(s, t, RelockCreate(trade, m)).(heap := s.heap[m := s.heap[m].(holder := None)]), t);
    case RelockCreate(trade, m) =>
      assert Next(s, Goto(s, t, Decrement(trade, m)).(createLock := Some(t)), t);
    case Decrement(trade, m) =>
      var u := Goto(s, t, MaybeDelete(trade, m));
      assert Next(s, u.(heap := s.heap[m := s.heap[m].(refCount := s.heap[m].refCount - 1)]), t);
    case MaybeDelete(trade, m) =>
      var u := Goto(s, t, ReunlockCreate(trade, m));
      assert Next(s, if s.heap[m].refCount == 0 then u.(orderLocks := s.orderLocks - {trade}) else u, t);
    case ReunlockCreate(_, _) =>
      assert Next(s, Goto(s, t, Idle).(createLock := None), t);
    case Idle =>
    case Crashed =>
  }

  lemma FreshId(used: set<nat>) returns (m: nat)
    ensures m !in used
  {
    m := 0;
    var left := used;
    while m in used
      invariant forall k :: k in used && k >= m ==> k in left
      decreases |left|
    {
      left := left - {m};
      m := m + 1;
    }
  }

  /** No deadlock: whenever some goroutine is inside a call or an order, some
      goroutine can take a step other than starting a new call. */
  lemma DeadlockFree(run: seq<State>, i: nat, t: Thread)
    requires Run(run) && i < |run|
    requires t in run[i].threads && run[i].threads[t] != Idle
    ensures exists u :: u in run[i].threads && run[i].threads[u] != Idle && CanMove(run[i], u)
  {
    InvAlways(run, i);
    var s := run[i];
    var pc := s.threads[t];
    if s.createLock.Some? {
      NonWaitingMoves(s, s.createLock.value);
    } else if pc.LockMutex? && s.heap[pc.m].holder.Some? {
      NonWaitingMoves(s, s.heap[pc.m].holder.value);
    } else {
      NonWaitingMoves(s, t);
    }
  }
}
