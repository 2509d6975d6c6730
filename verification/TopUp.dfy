/** Completion of top-up orders under the per-order lock: EpayNotify and
    AdminCompleteTopUp running in any number of goroutines, with database calls
    that may fail at any point, and may even fail after having taken effect. */
module TopUp {
  import opened Basics
  import opened OrderLock

  datatype Status = Pending | Success | Closed
  datatype Provider = Epay | Stripe | OtherProvider

  datatype Order = Order(user: nat, amount: int, money: real, payMethod: string, provider: Provider, status: Status)

  /** One successful call that added quota to a user on account of an order. */
  datatype Credit = Credit(trade: string, user: nat, quota: int)

  /** `settled` are the orders that were complete before the run; `lost` those for which a
      call failed between storing the completed row and adding the quota. */
  datatype Db = Db(
    orders: map<string, Order>, balances: map<nat, int>, credits: seq<Credit>,
    settled: set<string>, lost: set<string>)

  /** Progress of the goroutine that is between LockOrder and UnlockOrder.  `copy` is
      the order row in memory, with its status already set to success. */
  datatype Work = NotStarted | Loaded(copy: Order) | Saved(copy: Order) | Done

  datatype World = World(lock: State, work: map<Thread, Work>, db: Db)

  // ---------- amounts ----------

  /** decimal.IntPart: drops the fraction, towards zero. */
  function IntPart(x: real): (n: int)
    ensures x >= 0.0 ==> n as real <= x < n as real + 1.0
    ensures x <= 0.0 ==> n as real - 1.0 < x <= n as real
    ensures n > 0 <==> x >= 1.0
    ensures n >= 0 <==> x > -1.0
  {
    if x >= 0.0 then x.Floor else -(-x).Floor
  }

  /** The quota an order is worth; Stripe orders carry converted money instead. */
  function Due(o: Order, quotaPerUnit: real): int {
    IntPart((if o.provider == Stripe then o.money else o.amount as real) * quotaPerUnit)
  }

  /** That is the amount, or for Stripe the money, times the quota per unit, without its
      fraction. */
  lemma DueBounds(o: Order, q: real)
    ensures o.provider != Stripe && o.amount as real * q >= 0.0 ==>
      Due(o, q) as real <= o.amount as real * q < Due(o, q) as real + 1.0
    ensures o.provider == Stripe && o.money * q >= 0.0 ==>
      Due(o, q) as real <= o.money * q < Due(o, q) as real + 1.0
    ensures o.provider != Stripe ==> (Due(o, q) > 0 <==> o.amount as real * q >= 1.0)
    ensures o.provider == Stripe ==> (Due(o, q) > 0 <==> o.money * q >= 1.0)
    ensures o.provider != Stripe ==> (Due(o, q) >= 0 <==> o.amount as real * q > -1.0)
  {
    var worth := if o.provider == Stripe then o.money * q else o.amount as real * q;
    assert Due(o, q) == IntPart(worth);
  }

  function SumFor(credits: seq<Credit>, user: nat): int {
    if credits == [] then 0
    else
      var last := credits[|credits| - 1];
      SumFor(credits[..|credits| - 1], user) + (if last.user == user then last.quota else 0)
  }

  predicate Credited(credits: seq<Credit>, trade: string) {
    exists i :: 0 <= i < |credits| && credits[i].trade == trade
  }

  function Pay(db: Db, trade: string, user: nat, quota: int): Db {
    db.(balances := if user in db.balances then db.balances[user := db.balances[user] + quota] else db.balances,
        credits := db.credits + [Credit(trade, user, quota)])
  }

  // ---------- steps ----------

  ghost predicate Init(w: World) {
    && OrderLock.Init(w.lock)
    && w.work.Keys == w.lock.threads.Keys
    && (forall t :: t in w.work ==> w.work[t] == Done)
    && w.db.credits == [] && w.db.lost == {}
    && w.db.settled == set trade | trade in w.db.orders && w.db.orders[trade].status == Success
  }

  /** A step of LockOrder or UnlockOrder; UnlockOrder is deferred, so it runs once the work is done. */
  ghost predicate LockStep(w: World, w': World, t: Thread) {
    && OrderLock.Next(w.lock, w'.lock, t)
    && t in w.work
    && w'.db == w.db
    && (w.lock.threads[t].Inside? ==> w.work[t] == Done)
    && w'.work == if t in w'.lock.threads && w'.lock.threads[t].Inside? then w.work[t := NotStarted] else w.work
  }

  /** `t` holds the lock of `trade` and has got as far as `at`. */
  ghost predicate At(w: World, t: Thread, trade: string, at: Work) {
    && t in w.lock.threads && t in w.work
    && w.lock.threads[t].Inside? && w.lock.threads[t].trade == trade
    && w.work[t] == at
  }

  function After(w: World, t: Thread, work: Work, db: Db): World {
    w.(work := w.work[t := work], db := db)
  }

  /** GetTopUpByTradeNo and the checks on what it returned; a failed read looks like a missing order. */
  ghost predicate NotifyLoad(w: World, w': World, t: Thread, trade: string, payMethod: string) {
    && At(w, t, trade, NotStarted)
    && (|| w' == After(w, t, Done, w.db)
        || (&& trade in w.db.orders
            && w.db.orders[trade].provider == Epay && w.db.orders[trade].status == Pending
            && w' == After(w, t, Loaded(w.db.orders[trade].(payMethod := payMethod, status := Success)), w.db)))
  }

  /** topUp.Update: `written` tells whether the row was stored, `ok` whether success was reported. */
  ghost predicate NotifySave(w: World, w': World, t: Thread, trade: string, written: bool, ok: bool) {
    && t in w.work && w.work[t].Loaded? && At(w, t, trade, w.work[t])
    && (ok ==> written)
    && var copy := w.work[t].copy;
    && var db := if written then w.db.(orders := w.db.orders[trade := copy]) else w.db;
    && w' == if ok then After(w, t, Saved(copy), db)
             else After(w, t, Done, if written then db.(lost := db.lost + {trade}) else db)
  }

  /** IncreaseUserQuota, which refuses negative amounts. */
  ghost predicate NotifyCredit(w: World, w': World, t: Thread, trade: string, q: real, applied: bool, ok: bool) {
    && t in w.work && w.work[t].Saved? && At(w, t, trade, w.work[t])
    && (ok ==> applied)
    && var copy := w.work[t].copy;
    && (applied ==> Due(copy, q) >= 0)
    && var db := if applied then Pay(w.db, trade, copy.user, Due(copy, q)) else w.db;
    && w' == After(w, t, Done, if applied then db else db.(lost := db.lost + {trade}))
  }

  /** ManualCompleteTopUp: one transaction that checks, marks and credits, or does nothing. */
  ghost predicate AdminComplete(w: World, w': World, t: Thread, trade: string, q: real) {
    && At(w, t, trade, NotStarted)
    && (|| w' == After(w, t, Done, w.db)
        || (&& trade in w.db.orders && w.db.orders[trade].status == Pending
            && var o := w.db.orders[trade];
            && Due(o, q) > 0
            && w' == After(w, t, Done,
                 Pay(w.db.(orders := w.db.orders[trade := o.(status := Success)]), trade, o.user, Due(o, q)))))
  }

  /** A user opens a new order. */
  ghost predicate NewOrder(w: World, w': World, trade: string, o: Order) {
    trade !in w.db.orders && o.status == Pending && w' == w.(db := w.db.(orders := w.db.orders[trade := o]))
  }

  datatype Action =
    | Lock(t: Thread)
    | Load(t: Thread, trade: string, payMethod: string)
    | Save(t: Thread, trade: string, written: bool, ok: bool)
    | Increase(t: Thread, trade: string, applied: bool, ok: bool)
    | Admin(t: Thread, trade: string)
    | Open(trade: string, order: Order)

  ghost predicate Does(w: World, w': World, a: Action, q: real) {
    match a
    case Lock(t) => LockStep(w, w', t)
    case Load(t, trade, payMethod) => NotifyLoad(w, w', t, trade, payMethod)
    case Save(t, trade, written, ok) => NotifySave(w, w', t, trade, written, ok)
    case Increase(t, trade, applied, ok) => NotifyCredit(w, w', t, trade, q, applied, ok)
    case Admin(t, trade) => AdminComplete(w, w', t, trade, q)
    case Open(trade, order) => NewOrder(w, w', trade, order)
  }

  ghost predicate Step(w: World, w': World, q: real) {
    exists a :: Does(w, w', a, q)
  }

  ghost predicate Run(run: seq<World>, q: real) {
    && |run| > 0 && Init(run[0])
    && forall i :: 0 <= i < |run| - 1 ==> Step(run[i], run[i + 1], q)
  }

  // ---------- invariant ----------

  /** Everything of an order but its status and payment method. */
  predicate SameTerms(a: Order, b: Order) {
    a.user == b.user && a.amount == b.amount && a.money == b.money && a.provider == b.provider
  }

  /** A stale copy is written back only because nobody else can touch the order meanwhile. */
  ghost predicate WorkOk(w: World, t: Thread) {
    t in w.work && t in w.lock.threads &&
    (w.work[t].Loaded? || w.work[t].Saved? ==>
      && w.lock.threads[t].Inside?
      && var trade := w.lock.threads[t].trade;
      && var copy := w.work[t].copy;
      && trade in w.db.orders && SameTerms(w.db.orders[trade], copy)
      && copy.status == Success && copy.provider == Epay
      && w.db.orders[trade].status == (if w.work[t].Loaded? then Pending else Success)
      && !Credited(w.db.credits, trade)
      && trade !in w.db.settled)
  }

  ghost predicate CreditOk(orders: map<string, Order>, settled: set<string>, c: Credit, q: real) {
    && c.trade in orders && c.trade !in settled
    && orders[c.trade].status == Success
    && c.user == orders[c.trade].user
    && c.quota == Due(orders[c.trade], q)
  }

  ghost predicate LedgerInv(db: Db, q: real) {
    && (forall i :: 0 <= i < |db.credits| ==> CreditOk(db.orders, db.settled, db.credits[i], q))
    && (forall i, j :: 0 <= i < j < |db.credits| ==> db.credits[i].trade != db.credits[j].trade)
    && (forall trade :: trade in db.settled ==> trade in db.orders && db.orders[trade].status == Success)
  }

  ghost predicate Inv(w: World, q: real) {
    && OrderLock.Inv(w.lock)
    && w.work.Keys == w.lock.threads.Keys
    && AllWorkOk(w)
    && LedgerInv(w.db, q)
  }

  /** Two goroutines working on an order work on different orders. */
  ghost predicate WorkersApart(s: State) {
    forall t, u :: t in s.threads && u in s.threads && t != u && s.threads[t].Inside? && s.threads[u].Inside?
      ==> s.threads[t].trade != s.threads[u].trade
  }

  lemma LockKeepsApart(s: State)
    requires OrderLock.Inv(s)
    ensures WorkersApart(s)
  {
    forall t, u | t in s.threads && u in s.threads && t != u && s.threads[t].Inside? && s.threads[u].Inside?
      ensures s.threads[t].trade != s.threads[u].trade
    {
      assert HasMutex(s.threads[t], s.threads[t].m) && HasMutex(s.threads[u], s.threads[u].m);
      assert s.heap[s.threads[t].m].holder == Some(t);
      assert s.heap[s.threads[u].m].holder == Some(u);
    }
  }

  ghost predicate AllWorkOk(w: World) {
    forall t :: t in w.work ==> WorkOk(w, t)
  }

  /** A change confined to one order, made by its lock holder, leaves the other workers' views intact. */
  lemma OthersUnaffected(w: World, w': World, t: Thread, trade: string, at: Work)
    requires AllWorkOk(w) && WorkersApart(w.lock) && At(w, t, trade, at)
    requires w'.lock == w.lock && w'.db.settled == w.db.settled
    requires t in w'.work && w'.work == w.work[t := w'.work[t]] && WorkOk(w', t)
    requires forall o :: o in w.db.orders && o != trade ==> o in w'.db.orders && w'.db.orders[o] == w.db.orders[o]
    requires forall o :: o != trade ==> (Credited(w'.db.credits, o) <==> Credited(w.db.credits, o))
    ensures AllWorkOk(w')
  {
    forall u | u in w'.work
      ensures WorkOk(w', u)
    {
      assert u != t ==> WorkOk(w, u);
    }
  }

  lemma CreditedAfter(credits: seq<Credit>, c: Credit, trade: string)
    ensures Credited(credits + [c], trade) <==> Credited(credits, trade) || c.trade == trade
  {
    var after := credits + [c];
    assert after[|credits|] == c;
    if Credited(credits, trade) {
      var i :| 0 <= i < |credits| && credits[i].trade == trade;
      assert after[i].trade == trade;
    }
  }

  lemma PaidOnce(db: Db, q: real, trade: string)
    requires LedgerInv(db, q) && trade in db.orders && db.orders[trade].status == Success && trade !in db.settled
    requires !Credited(db.credits, trade)
    ensures LedgerInv(Pay(db, trade, db.orders[trade].user, Due(db.orders[trade], q)), q)
  {
  }

  lemma PendingNotCredited(db: Db, q: real, trade: string)
    requires LedgerInv(db, q) && trade in db.orders && db.orders[trade].status != Success
    ensures !Credited(db.credits, trade) && trade !in db.settled
  {
  }

  lemma OrderCompleted(db: Db, q: real, trade: string, o: Order)
    requires LedgerInv(db, q) && trade in db.orders && db.orders[trade].status == Pending
    requires SameTerms(db.orders[trade], o) && o.status == Success
    ensures LedgerInv(db.(orders := db.orders[trade := o]), q)
  {
    PendingNotCredited(db, q, trade);
  }

  lemma LockStepKeeps(w: World, w': World, t: Thread, q: real)
    requires Inv(w, q) && LockStep(w, w', t)
    ensures Inv(w', q)
  {
    OrderLock.InvKept(w.lock, w'.lock, t);
    OrderLock.MovesOnly(w.lock, w'.lock, t);
    LockStepKeepsWork(w, w', t);
  }

  lemma LockStepKeepsWork(w: World, w': World, t: Thread)
    requires AllWorkOk(w) && LockStep(w, w', t) && w.work.Keys == w.lock.threads.Keys
    requires t in w'.lock.threads && w'.lock.threads == w.lock.threads[t := w'.lock.threads[t]]
    ensures AllWorkOk(w') && w'.work.Keys == w'.lock.threads.Keys
  {
    forall u | u in w'.work
      ensures WorkOk(w', u)
    {
      assert WorkOk(w, u);
    }
  }

  lemma LoadKeeps(w: World, w': World, t: Thread, trade: string, payMethod: string, q: real)
    requires Inv(w, q) && NotifyLoad(w, w', t, trade, payMethod)
    ensures Inv(w', q)
  {
    if w'.work[t].Loaded? {
      PendingNotCredited(w.db, q, trade);
    }
    forall u | u in w'.work
      ensures WorkOk(w', u)
    {
      assert WorkOk(w, u);
    }
  }

  lemma SaveKeeps(w: World, w': World, t: Thread, trade: string, written: bool, ok: bool, q: real)
    requires AllWorkOk(w) && WorkersApart(w.lock) && LedgerInv(w.db, q)
    requires NotifySave(w, w', t, trade, written, ok)
    ensures AllWorkOk(w') && LedgerInv(w'.db, q)
  {
    assert WorkOk(w, t);
    if written {
      OrderCompleted(w.db, q, trade, w.work[t].copy);
    }
    OthersUnaffected(w, w', t, trade, w.work[t]);
  }

  lemma PayCredits(db: Db, trade: string, user: nat, quota: int)
    ensures forall o :: Credited(Pay(db, trade, user, quota).credits, o) <==> Credited(db.credits, o) || o == trade
  {
    forall o ensures Credited(Pay(db, trade, user, quota).credits, o) <==> Credited(db.credits, o) || o == trade {
      CreditedAfter(db.credits, Credit(trade, user, quota), o);
    }
  }

  lemma CreditKeeps(w: World, w': World, t: Thread, trade: string, applied: bool, ok: bool, q: real)
    requires AllWorkOk(w) && WorkersApart(w.lock) && LedgerInv(w.db, q)
    requires NotifyCredit(w, w', t, trade, q, applied, ok)
    ensures AllWorkOk(w') && LedgerInv(w'.db, q)
  {
    assert WorkOk(w, t);
    var copy := w.work[t].copy;
    if applied {
      PaidOnce(w.db, q, trade);
      PayCredits(w.db, trade, copy.user, Due(copy, q));
    }
    OthersUnaffected(w, w', t, trade, w.work[t]);
  }

  /** A notification goes on only with a pending Epay order, and stores it completed and with
      the payment method that was notified. */
  lemma NotifyTakesOver(w: World, w': World, w'': World, t: Thread, trade: string, payMethod: string, ok: bool)
    requires NotifyLoad(w, w', t, trade, payMethod) && NotifySave(w', w'', t, trade, true, ok)
    ensures trade in w.db.orders && w.db.orders[trade].status == Pending && w.db.orders[trade].provider == Epay
    ensures w''.db.orders == w.db.orders[trade := w.db.orders[trade].(status := Success, payMethod := payMethod)]
    ensures w''.db.credits == w.db.credits && w''.db.balances == w.db.balances
  {
  }

  /** A manual completion that does anything turns a pending order into a completed one and
      adds one positive credit for it, of the same amount as above, whatever the provider. */
  lemma AdminPays(w: World, w': World, t: Thread, trade: string, q: real)
    requires AdminComplete(w, w', t, trade, q) && w'.db != w.db
    ensures trade in w.db.orders
    ensures var o := w.db.orders[trade];
      && o.status == Pending && w'.db.orders == w.db.orders[trade := o.(status := Success)]
      && |w'.db.credits| == |w.db.credits| + 1 && w'.db.credits[..|w.db.credits|] == w.db.credits
    ensures var o, c := w.db.orders[trade], w'.db.credits[|w.db.credits|];
      && c.trade == trade && c.user == o.user && c.quota >= 1
      && (o.provider != Stripe ==> c.quota as real <= o.amount as real * q < c.quota as real + 1.0)
      && (o.provider == Stripe ==> c.quota as real <= o.money * q < c.quota as real + 1.0)
      && w'.db.balances == if o.user in w.db.balances
                           then w.db.balances[o.user := w.db.balances[o.user] + c.quota] else w.db.balances
  {
    DueBounds(w.db.orders[trade], q);
  }

  /** And it can do so exactly for a pending order worth at least one unit of quota. */
  lemma AdminPaysIff(w: World, t: Thread, trade: string, q: real)
    requires At(w, t, trade, NotStarted)
    ensures (exists w' :: AdminComplete(w, w', t, trade, q) && w'.db != w.db) <==>
      && trade in w.db.orders && w.db.orders[trade].status == Pending
      && (if w.db.orders[trade].provider == Stripe then w.db.orders[trade].money * q >= 1.0
          else w.db.orders[trade].amount as real * q >= 1.0)
  {
    if trade in w.db.orders {
      DueBounds(w.db.orders[trade], q);
    }
    if trade in w.db.orders && w.db.orders[trade].status == Pending && Due(w.db.orders[trade], q) > 0 {
      var o := w.db.orders[trade];
      var marked := w.db.(orders := w.db.orders[trade := o.(status := Success)]);
      var paid := After(w, t, Done, Pay(marked, trade, o.user, Due(o, q)));
      assert paid.db.orders[trade].status == Success;
      assert AdminComplete(w, paid, t, trade, q) && paid.db != w.db;
    }
  }

  /** The quota increase after a stored notification is refused exactly for a negative quota. */
  lemma IncreaseEnabledIff(w: World, a: Action, q: real)
    requires a.Increase? && a.applied && a.ok
    requires a.t in w.work && w.work[a.t].Saved? && At(w, a.t, a.trade, w.work[a.t])
    ensures (exists w' :: Does(w, w', a, q)) <==> Due(w.work[a.t].copy, q) >= 0
  {
    var copy := w.work[a.t].copy;
    var paid := After(w, a.t, Done, Pay(w.db, a.trade, copy.user, Due(copy, q)));
    if Due(copy, q) >= 0 {
      assert Does(w, paid, a, q);
    }
  }

  lemma AdminKeeps(w: World, w': World, t: Thread, trade: string, q: real)
    requires AllWorkOk(w) && WorkersApart(w.lock) && LedgerInv(w.db, q)
    requires AdminComplete(w, w', t, trade, q)
    ensures AllWorkOk(w') && LedgerInv(w'.db, q)
  {
    if w' != After(w, t, Done, w.db) {
      var o := w.db.orders[trade].(status := Success);
      var marked := w.db.(orders := w.db.orders[trade := o]);
      PendingNotCredited(w.db, q, trade);
      OrderCompleted(w.db, q, trade, o);
      PaidOnce(marked, q, trade);
      assert Due(o, q) == Due(w.db.orders[trade], q);
      assert w'.db == Pay(marked, trade, o.user, Due(o, q));
      PayCredits(marked, trade, o.user, Due(o, q));
    }
    OthersUnaffected(w, w', t, trade, NotStarted);
  }

  lemma OpenKeeps(w: World, w': World, trade: string, o: Order, q: real)
    requires Inv(w, q) && NewOrder(w, w', trade, o)
    ensures Inv(w', q)
  {
    forall u | u in w'.work
      ensures WorkOk(w', u)
    {
      assert WorkOk(w, u);
    }
  }

  lemma InvKept(w: World, w': World, a: Action, q: real)
    requires Inv(w, q) && Does(w, w', a, q)
    ensures Inv(w', q)
  {
    LockKeepsApart(w.lock);
    match a
    case Lock(t) => LockStepKeeps(w, w', t, q);
    case Load(t, trade, payMethod) => LoadKeeps(w, w', t, trade, payMethod, q);
    case Save(t, trade, written, ok) => SaveKeeps(w, w', t, trade, written, ok, q);
    case Increase(t, trade, applied, ok) => CreditKeeps(w, w', t, trade, applied, ok, q);
    case Admin(t, trade) => AdminKeeps(w, w', t, trade, q);
    case Open(trade, order) => OpenKeeps(w, w', trade, order, q);
  }

  lemma InvInitial(w: World, q: real)
    requires Init(w)
    ensures Inv(w, q)
  {
    OrderLock.InvInitial(w.lock);
  }

  lemma {:induction false} InvAlways(run: seq<World>, q: real, i: nat)
    requires Run(run, q) && i < |run|
    ensures Inv(run[i], q)
  {
    if i == 0 {
      InvInitial(run[0], q);
    } else {
      InvAlways(run, q, i - 1);
      assert Step(run[i - 1], run[i - 1 + 1], q);
      var a :| Does(run[i - 1], run[i], a, q);
      InvKept(run[i - 1], run[i], a, q);
    }
  }

  // ---------- main results ----------

  /** However many notifications and manual completions race, and whatever fails,
      an order is credited at most once, only when it is in status success, to its own
      user and with exactly the quota it is worth: the amount times the quota per unit,
      for Stripe the money instead, without its fraction. */
  lemma CreditedAtMostOnce(run: seq<World>, q: real, i: nat)
    requires Run(run, q) && i < |run|
    ensures var db := run[i].db;
      && (forall j, k :: 0 <= j < k < |db.credits| ==> db.credits[j].trade != db.credits[k].trade)
      && (forall j :: 0 <= j < |db.credits| ==>
            && db.credits[j].trade in db.orders
            && var c, o := db.credits[j], db.orders[db.credits[j].trade];
            && o.status == Success && c.user == o.user
            && c.quota == Due(o, q) >= 0
            && (o.provider != Stripe && o.amount as real * q >= 0.0 ==>
                  c.quota as real <= o.amount as real * q < c.quota as real + 1.0)
            && (o.provider == Stripe && o.money * q >= 0.0 ==>
                  c.quota as real <= o.money * q < c.quota as real + 1.0)
            && (c.quota > 0 ==> if o.provider == Stripe then o.money * q >= 1.0 else o.amount as real * q >= 1.0))
  {
    InvAlways(run, q, i);
    CreditsNonNegative(run, q, i);
    var db := run[i].db;
    forall j | 0 <= j < |db.credits| {
      DueBounds(db.orders[db.credits[j].trade], q);
    }
  }

  /** A step makes at most one payment, of a non-negative amount. */
  ghost predicate PaysAtMostOnce(db: Db, db': Db) {
    || (db'.credits == db.credits && db'.balances == db.balances)
    || (&& |db'.credits| == |db.credits| + 1 && db'.credits[..|db.credits|] == db.credits
        && var c := db'.credits[|db.credits|];
        && c.quota >= 0
        && db'.balances == if c.user in db.balances then db.balances[c.user := db.balances[c.user] + c.quota]
                           else db.balances)
  }

  /** Balances move with credits: one new credit adds its quota to its user's balance and
      to no other, and without a new credit no balance moves. */
  lemma StepPaysAtMostOnce(w: World, w': World, a: Action, q: real)
    requires Does(w, w', a, q)
    ensures PaysAtMostOnce(w.db, w'.db)
    ensures w'.db.credits == w.db.credits ==> w'.db.balances == w.db.balances
    ensures w'.db.credits != w.db.credits ==>
      && |w'.db.credits| == |w.db.credits| + 1
      && var c := w'.db.credits[|w.db.credits|];
      && w'.db.balances.Keys == w.db.balances.Keys
      && forall user :: user in w.db.balances ==>
           w'.db.balances[user] == w.db.balances[user] + if user == c.user then c.quota else 0
  {
  }

  lemma {:induction false} CreditsNonNegative(run: seq<World>, q: real, i: nat)
    requires Run(run, q) && i < |run|
    ensures forall j :: 0 <= j < |run[i].db.credits| ==> run[i].db.credits[j].quota >= 0
  {
    if i > 0 {
      CreditsNonNegative(run, q, i - 1);
      assert Step(run[i - 1], run[i - 1 + 1], q);
      var a :| Does(run[i - 1], run[i], a, q);
      StepPaysAtMostOnce(run[i - 1], run[i], a, q);
      var before, after := run[i - 1].db.credits, run[i].db.credits;
      assert forall j :: 0 <= j < |before| ==> after[j] == after[..|before|][j];
    }
  }

  lemma PaymentMovesBalance(db: Db, db': Db, user: nat)
    requires PaysAtMostOnce(db, db') && user in db.balances
    ensures user in db'.balances
    ensures db'.balances[user] - db.balances[user] == SumFor(db'.credits, user) - SumFor(db.credits, user)
  {
    if db'.credits != db.credits {
      assert db'.credits[..|db'.credits| - 1] == db.credits;
    }
  }

  /** A balance is what it was plus the credits recorded for the user. */
  lemma {:induction false} BalanceIsLedger(run: seq<World>, q: real, i: nat, user: nat)
    requires Run(run, q) && i < |run| && user in run[0].db.balances
    ensures user in run[i].db.balances
    ensures run[i].db.balances[user] == run[0].db.balances[user] + SumFor(run[i].db.credits, user)
  {
    if i > 0 {
      BalanceIsLedger(run, q, i - 1, user);
      assert Step(run[i - 1], run[i - 1 + 1], q);
      var a :| Does(run[i - 1], run[i], a, q);
      StepPaysAtMostOnce(run[i - 1], run[i], a, q);
      PaymentMovesBalance(run[i - 1].db, run[i].db, user);
    }
  }

  ghost predicate BeingCredited(w: World, trade: string) {
    exists t :: t in w.work && t in w.lock.threads && w.work[t].Saved? && w.lock.threads[t].Inside?
      && w.lock.threads[t].trade == trade
  }

  /** Completed in this run, not paid, and nobody is about to pay. */
  ghost predicate Stranded(w: World, trade: string) {
    && trade in w.db.orders && w.db.orders[trade].status == Success && trade !in w.db.settled
    && !Credited(w.db.credits, trade) && !BeingCredited(w, trade)
  }

  lemma StrandedStep(w: World, w': World, a: Action, q: real, trade: string)
    requires Inv(w, q) && Does(w, w', a, q) && Stranded(w, trade)
    ensures Stranded(w', trade)
  {
    CreditsOnlyGrow(w, w', a, q, trade);
    if BeingCredited(w', trade) {
      BeingCreditedComesFromSave(w, w', a, q, trade);
    }
  }

  /** Credits are never taken back, and a new one is for an order being credited or pending. */
  lemma CreditsOnlyGrow(w: World, w': World, a: Action, q: real, trade: string)
    requires Does(w, w', a, q)
    ensures Credited(w.db.credits, trade) ==> Credited(w'.db.credits, trade)
    ensures Credited(w'.db.credits, trade) && !Credited(w.db.credits, trade) ==>
      BeingCredited(w, trade) || (a.Admin? && trade in w.db.orders && w.db.orders[trade].status == Pending)
    ensures trade in w.db.orders && w.db.orders[trade].status == Success
      && (a.Save? ==> a.written ==> w.work[a.t].copy.status == Success)
      ==> trade in w'.db.orders && w'.db.orders[trade].status == Success
  {
    if w'.db.credits != w.db.credits {
      CreditedAfter(w.db.credits, w'.db.credits[|w.db.credits|], trade);
    }
  }

  lemma BeingCreditedComesFromSave(w: World, w': World, a: Action, q: real, trade: string)
    requires AllWorkOk(w) && w.work.Keys == w.lock.threads.Keys && Does(w, w', a, q) && BeingCredited(w', trade)
    ensures BeingCredited(w, trade) || (trade in w.db.orders && w.db.orders[trade].status == Pending)
  {
    var t :| t in w'.work && t in w'.lock.threads && w'.work[t].Saved? && w'.lock.threads[t].Inside?
      && w'.lock.threads[t].trade == trade;
    assert WorkOk(w, t);
    if a.Lock? {
      OrderLock.MovesOnly(w.lock, w'.lock, a.t);
      assert t != a.t;
    }
  }

  /** How a credit gets lost: the row was stored as success, then that call or the
      quota increase reported an error without adding the quota. */
  lemma FailureStrands(w: World, w': World, a: Action, q: real)
    requires Inv(w, q) && Does(w, w', a, q)
    requires Loses(a)
    ensures Stranded(w', a.trade)
  {
    LockKeepsApart(w.lock);
    assert WorkOk(w, a.t);
    assert w'.work == w.work[a.t := Done];
    forall u | u in w.work && u != a.t && w.work[u].Saved?
      ensures w.lock.threads[u].trade != a.trade
    {
      assert WorkOk(w, u);
    }
  }

  /** A lost credit stays lost: once an order is in status success without a credit and
      without a goroutine about to credit it, no later notification credits it. */
  lemma {:induction false} StrandedForever(run: seq<World>, q: real, i: nat, j: nat, trade: string)
    requires Run(run, q) && i <= j < |run| && Stranded(run[i], trade)
    ensures Stranded(run[j], trade)
  {
    if i < j {
      StrandedForever(run, q, i, j - 1, trade);
      InvAlways(run, q, j - 1);
      assert Step(run[j - 1], run[j - 1 + 1], q);
      var a :| Does(run[j - 1], run[j], a, q);
      StrandedStep(run[j - 1], run[j], a, q, trade);
    }
  }

  lemma BeingCreditedKept(w: World, w': World, a: Action, q: real, trade: string)
    requires Does(w, w', a, q) && BeingCredited(w, trade) && !a.Increase?
    ensures BeingCredited(w', trade)
  {
    var t :| t in w.work && t in w.lock.threads && w.work[t].Saved?
      && w.lock.threads[t].Inside? && w.lock.threads[t].trade == trade;
    if a.Lock? {
      OrderLock.MovesOnly(w.lock, w'.lock, a.t);
      assert t != a.t;
    }
    assert w'.work[t] == w.work[t];
  }

  lemma IncreaseSettles(w: World, w': World, a: Action, q: real, trade: string)
    requires Does(w, w', a, q) && BeingCredited(w, trade) && a.Increase?
    ensures BeingCredited(w', trade) || trade in w'.db.lost || Credited(w'.db.credits, trade)
  {
    var t :| t in w.work && t in w.lock.threads && w.work[t].Saved?
      && w.lock.threads[t].Inside? && w.lock.threads[t].trade == trade;
    if t != a.t {
      assert w'.work[t] == w.work[t];
    } else if a.applied {
      assert w'.db.credits[|w.db.credits|].trade == trade;
    }
  }

  /** Only a save or a manual completion turns an order to success, and both see to the
      credit unless the save reports an error. */
  lemma NewlyComplete(w: World, w': World, a: Action, q: real, trade: string)
    requires Does(w, w', a, q)
    requires trade in w'.db.orders && w'.db.orders[trade].status == Success && trade !in w'.db.lost
    requires !(trade in w.db.orders && w.db.orders[trade].status == Success)
    ensures Credited(w'.db.credits, trade) || BeingCredited(w', trade)
  {
    match a
    case Save(t, _, _, _) => assert w'.work[t].Saved?;
    case Admin(t, _) => assert w'.db.credits[|w.db.credits|].trade == trade;
    case _ =>
  }

  /** The two failing calls that lose a credit. */
  predicate Loses(a: Action) {
    (a.Save? && a.written && !a.ok) || (a.Increase? && !a.applied)
  }

  lemma LostGrows(w: World, w': World, a: Action, q: real)
    requires Does(w, w', a, q)
    ensures w'.db.lost == if Loses(a) then w.db.lost + {a.trade} else w.db.lost
    ensures w'.db.settled == w.db.settled
  {
  }

  /** An order that a step strands is one the step loses. */
  lemma StrandedByLoss(w: World, w': World, a: Action, q: real, trade: string)
    requires Inv(w, q) && Does(w, w', a, q) && Stranded(w', trade) && !Stranded(w, trade)
    ensures trade in w'.db.lost
  {
    CreditsOnlyGrow(w, w', a, q, trade);
    LostGrows(w, w', a, q);
    if !(trade in w.db.orders && w.db.orders[trade].status == Success) {
      if trade !in w'.db.lost {
        NewlyComplete(w, w', a, q, trade);
      }
    } else if a.Increase? {
      IncreaseSettles(w, w', a, q, trade);
    } else {
      BeingCreditedKept(w, w', a, q, trade);
    }
  }

  lemma StrandedIffLostStep(w: World, w': World, a: Action, q: real, trade: string)
    requires Inv(w, q) && Does(w, w', a, q) && (Stranded(w, trade) <==> trade in w.db.lost)
    ensures Stranded(w', trade) <==> trade in w'.db.lost
  {
    LostGrows(w, w', a, q);
    if Loses(a) && trade == a.trade {
      FailureStrands(w, w', a, q);
    } else if trade in w.db.lost {
      StrandedStep(w, w', a, q, trade);
    } else if Stranded(w', trade) {
      StrandedByLoss(w, w', a, q, trade);
    }
  }

  /** In every state of every run, the orders completed but neither paid nor about to be
      paid are exactly those for which a call failed after the completed row was stored
      and before the quota was added. */
  lemma {:induction false} StrandedIffLost(run: seq<World>, q: real, i: nat, trade: string)
    requires Run(run, q) && i < |run|
    ensures Stranded(run[i], trade) <==> trade in run[i].db.lost
  {
    if i == 0 {
      assert Init(run[0]);
    } else {
      StrandedIffLost(run, q, i - 1, trade);
      InvAlways(run, q, i - 1);
      assert Step(run[i - 1], run[i - 1 + 1], q);
      var a :| Does(run[i - 1], run[i], a, q);
      StrandedIffLostStep(run[i - 1], run[i], a, q, trade);
    }
  }

  /** So completing means crediting exactly where no such failure occurs: an order that
      reached status success in the run has its credit as soon as its lock holder is
      through, unless it is lost, and then it never gets one. */
  lemma CompletedMeansCredited(run: seq<World>, q: real, i: nat, trade: string)
    requires Run(run, q) && i < |run|
    requires trade in run[i].db.orders && run[i].db.orders[trade].status == Success && trade !in run[i].db.settled
    ensures Credited(run[i].db.credits, trade) || BeingCredited(run[i], trade) <==> trade !in run[i].db.lost
    ensures trade in run[i].db.lost ==> forall j :: i <= j < |run| ==> !Credited(run[j].db.credits, trade)
  {
    StrandedIffLost(run, q, i, trade);
    if trade in run[i].db.lost {
      forall j | i <= j < |run|
        ensures !Credited(run[j].db.credits, trade)
      {
        StrandedForever(run, q, i, j, trade);
      }
    }
  }

  ghost predicate LostIsEpay(db: Db, trade: string) {
    trade in db.lost ==> trade in db.orders && db.orders[trade].provider == Epay
  }

  /** Orders stay with their provider, and a lossy call concerns an Epay order. */
  lemma LostIsEpayStep(w: World, w': World, a: Action, q: real, trade: string)
    requires Inv(w, q) && Does(w, w', a, q) && LostIsEpay(w.db, trade)
    ensures LostIsEpay(w'.db, trade)
  {
    LostGrows(w, w', a, q);
    if a.Save? || a.Increase? {
      assert WorkOk(w, a.t);
    }
  }

  /** Only orders of the Epay provider can be lost. */
  lemma {:induction false} LostAreEpay(run: seq<World>, q: real, i: nat, trade: string)
    requires Run(run, q) && i < |run|
    ensures LostIsEpay(run[i].db, trade)
  {
    if i == 0 {
      assert Init(run[0]);
    } else {
      LostAreEpay(run, q, i - 1, trade);
      InvAlways(run, q, i - 1);
      assert Step(run[i - 1], run[i - 1 + 1], q);
      var a :| Does(run[i - 1], run[i], a, q);
      LostIsEpayStep(run[i - 1], run[i], a, q, trade);
    }
  }

  // ---------- runs that lose a credit ----------

  lemma Extend(run: seq<World>, q: real, a: Action, w: World)
    requires Run(run, q) && Does(Last(run), w, a, q)
    ensures Run(run + [w], q)
  {
    var longer := run + [w];
    forall i | 0 <= i < |longer| - 1
      ensures Step(longer[i], longer[i + 1], q)
    {
      if i < |run| - 1 {
        assert Step(run[i], run[i + 1], q);
      } else {
        assert Does(longer[i], longer[i + 1], a, q);
      }
    }
  }

  /** The locks after `k` steps of one goroutine, alone, in LockOrder. */
  function Locking(trade: string, k: nat): State {
    var locks, free, counted := map[trade := 0], map[0 := Rcm(None, 0)], map[0 := Rcm(None, 1)];
    if k == 0 then State(None, map[], map[], map[0 := Idle])
    else if k == 1 then State(None, map[], map[], map[0 := LockCreate(trade)])
    else if k == 2 then State(Some(0), map[], map[], map[0 := OrderLock.Load(trade)])
    else if k == 3 then State(Some(0), map[], map[], map[0 := StoreNew(trade)])
    else if k == 4 then State(Some(0), locks, free, map[0 := Increment(trade, 0)])
    else if k == 5 then State(Some(0), locks, counted, map[0 := UnlockCreate(trade, 0)])
    else if k == 6 then State(None, locks, counted, map[0 := LockMutex(trade, 0)])
    else State(None, locks, map[0 := Rcm(Some(0), 1)], map[0 := Inside(trade, 0)])
  }

  lemma LockingStep(trade: string, k: nat)
    requires k < 7
    ensures OrderLock.Next(Locking(trade, k), Locking(trade, k + 1), 0)
  {
    var s, s' := Locking(trade, k), Locking(trade, k + 1);
    if k == 0 {
      assert s' == Goto(s, 0, LockCreate(trade));
    } else if k == 3 {
      assert 0 !in s.heap;
      assert s' == Goto(s, 0, Increment(trade, 0))
                   .(heap := s.heap[0 := Rcm(None, 0)], orderLocks := s.orderLocks[trade := 0]);
    }
  }

  lemma {:induction false} LockAlone(start: World, q: real, trade: string, k: nat) returns (run: seq<World>)
    requires Init(start) && start.lock == Locking(trade, 0) && k <= 7
    ensures Run(run, q) && run[0] == start
    ensures Last(run) == World(Locking(trade, k), if k == 7 then map[0 := NotStarted] else map[0 := Done], start.db)
  {
    if k == 0 {
      run := [start];
    } else {
      var before := LockAlone(start, q, trade, k - 1);
      LockingStep(trade, k - 1);
      var next := World(Locking(trade, k), if k == 7 then map[0 := NotStarted] else map[0 := Done], start.db);
      assert LockStep(Last(before), next, 0);
      Extend(before, q, Lock(0), next);
      run := before + [next];
    }
  }

  /** A notification, alone, that has read a pending order. */
  lemma LoadAlone(trade: string, o: Order, q: real) returns (run: seq<World>)
    requires o.provider == Epay && o.status == Pending
    ensures Run(run, q) && run[0].db.orders == map[trade := o]
    ensures Last(run) == World(
      Locking(trade, 7), map[0 := Loaded(o.(status := Success))], Db(map[trade := o], map[], [], {}, {}))
  {
    var start := World(Locking(trade, 0), map[0 := Done], Db(map[trade := o], map[], [], {}, {}));
    run := LockAlone(start, q, trade, 7);
    var w := Last(run).(work := map[0 := Loaded(o.(status := Success))]);
    assert NotifyLoad(Last(run), w, 0, trade, o.payMethod);
    Extend(run, q, Action.Load(0, trade, o.payMethod), w);
    run := run + [w];
  }

  /** A single notification can strand any pending Epay order, either way: the save reports an
      error although the row was stored, or the save succeeds and the quota increase fails. */
  lemma CanStrand(trade: string, o: Order, q: real, saved: bool) returns (run: seq<World>)
    requires o.provider == Epay && o.status == Pending
    ensures Run(run, q) && run[0].db.orders == map[trade := o] && Stranded(Last(run), trade)
  {
    run := LoadAlone(trade, o, q);
    var copy := o.(status := Success);
    var stored := Db(map[trade := copy], map[], [], {}, {});
    var end := World(Locking(trade, 7), map[0 := Done], stored.(lost := {trade}));
    if saved {
      var w := World(Locking(trade, 7), map[0 := Saved(copy)], stored);
      assert NotifySave(Last(run), w, 0, trade, true, true);
      Extend(run, q, Save(0, trade, true, true), w);
      run := run + [w];
      assert NotifyCredit(w, end, 0, trade, q, false, false);
      Extend(run, q, Increase(0, trade, false, false), end);
    } else {
      assert NotifySave(Last(run), end, 0, trade, true, false);
      Extend(run, q, Save(0, trade, true, false), end);
    }
    run := run + [end];
    assert !Credited([], trade);
  }
}
