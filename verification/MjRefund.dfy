/** Refunds of failed image tasks: pollers work on copies of a stored task and write back
    under a compare-and-set on its status; the winner of a failing update refunds. */
module MjRefund {
  import opened Basics

  const FINISHED := "100%"
  const FAILURE := "FAILURE"
  const TIMED_OUT := "上游任务超时（超过1小时）"

  /** The fields that are only passed on. */
  datatype Details = Details(
    promptEn: string, state: string, submitTime: int, startTime: int, finishTime: int,
    imageUrl: string, videoUrl: string)

  datatype Response = Response(
    progress: string, status: string, failReason: string, details: Details, videoUrls: seq<string>)

  datatype Task = Task(
    code: int, progress: string, status: string, failReason: string, details: Details, videoUrls: string, quota: int)

  /** The JSON text of a list of links. */
  type Encoding = seq<string> -> string

  function LinksText(r: Response, encode: Encoding): string {
    if r.videoUrls == [] then "" else encode(r.videoUrls)
  }

  /** checkMjTaskNeedUpdate. */
  predicate NeedUpdate(task: Task, r: Response, encode: Encoding) {
    || task.code != 1
    || task.progress != r.progress
    || task.details != r.details
    || task.status != r.status
    || task.failReason != r.failReason
    || (task.progress != FINISHED && r.failReason != "")
    || (if r.videoUrls != [] then task.videoUrls != encode(r.videoUrls) else task.videoUrls != "")
  }

  predicate Refunding(r: Response) {
    (r.progress != FINISHED && r.failReason != "") || (r.progress == FINISHED && r.status == FAILURE)
  }

  /** A response that keeps the task open. */
  predicate Unfinishing(r: Response) {
    r.progress != FINISHED && r.failReason == ""
  }

  /** The copy after taking over a response. */
  function Updated(task: Task, r: Response, encode: Encoding): Task {
    Task(1, if Refunding(r) then FINISHED else r.progress, r.status, r.failReason,
         r.details, LinksText(r, encode), task.quota)
  }

  /** An update is skipped exactly when it would change nothing and could not refund again. */
  lemma SkippedIff(task: Task, r: Response, encode: Encoding)
    ensures !NeedUpdate(task, r, encode) <==>
      Updated(task, r, encode) == task && (r.progress == FINISHED || r.failReason == "")
  {
  }

  /** After an hour an open task counts as failed, whatever the response says. */
  function Effective(task: Task, r: Response, late: bool): Response {
    if late && task.progress != FINISHED then r.(failReason := TIMED_OUT, status := FAILURE) else r
  }

  datatype Outcome = Outcome(copy: Task, row: Task, refund: int)

  /** One response item against a copy and the stored row.  The write may fail, and so may
      the credit after it. */
  function Handle(copy: Task, row: Task, item: Response, late: bool, writeOk: bool, creditOk: bool,
                  encode: Encoding): Outcome
  {
    var r := Effective(copy, item, late);
    if !NeedUpdate(copy, r, encode) then Outcome(copy, row, 0)
    else
      var updated := Updated(copy, r, encode);
      if writeOk && row.status == copy.status then
        Outcome(updated, updated, if Refunding(r) && creditOk then copy.quota else 0)
      else Outcome(updated, row, 0)
  }

  class Account {
    var quota: int

    constructor (quota: int)
      ensures this.quota == quota
    {
      this.quota := quota;
    }
  }

  class Midjourney {
    var code: int
    var progress: string
    var status: string
    var failReason: string
    var details: Details
    var videoUrls: string
    var quota: int

    constructor (t: Task)
      ensures Value() == t
    {
      code, progress, status, failReason := t.code, t.progress, t.status, t.failReason;
      details, videoUrls, quota := t.details, t.videoUrls, t.quota;
    }

    function Value(): Task
      reads this
    {
      Task(code, progress, status, failReason, details, videoUrls, quota)
    }

    /** Taking over a response, field by field; tells whether the quota is to be returned. */
    method TakeOver(responseItem: Response, encode: Encoding) returns (shouldReturnQuota: bool)
      modifies this
      ensures Value() == Updated(old(Value()), responseItem, encode)
      ensures shouldReturnQuota <==> Refunding(responseItem) && quota != 0
    {
      code := 1;
      progress := responseItem.progress;
      details := responseItem.details;
      status := responseItem.status;
      failReason := responseItem.failReason;
      if |responseItem.videoUrls| > 0 {
        videoUrls := encode(responseItem.videoUrls);
      } else {
        videoUrls := "";
      }
      shouldReturnQuota := false;
      if (progress != FINISHED && responseItem.failReason != "") || (progress == FINISHED && status == FAILURE) {
        progress := FINISHED;
        if quota != 0 {
          shouldReturnQuota := true;
        }
      }
    }

    /** Writing everything back if the stored status is still the one read. */
    method UpdateWithStatus(row: Row, fromStatus: string) returns (won: bool)
      modifies row
      ensures won <==> old(row.stored.status) == fromStatus
      ensures row.stored == if won then Value() else old(row.stored)
    {
      won := row.stored.status == fromStatus;
      if won {
        row.stored := Value();
      }
    }
  }

  /** The stored task. */
  class Row {
    var stored: Task

    constructor (stored: Task)
      ensures this.stored == stored
    {
      this.stored := stored;
    }
  }

  /** The loop body for one response item. */
  method ProcessItem(task: Midjourney, row: Row, user: Account, item: Response, late: bool,
                     writeOk: bool, creditOk: bool, encode: Encoding)
    modifies task, row, user
    ensures var outcome := Handle(old(task.Value()), old(row.stored), item, late, writeOk, creditOk, encode);
      task.Value() == outcome.copy && row.stored == outcome.row && user.quota == old(user.quota) + outcome.refund
    // an open task is refunded in full exactly when it fails, its status is still the one
    // that was read, and both calls work; nothing else moves the balance
    ensures old(task.progress) != "100%" ==>
      var fails := late || (item.progress != "100%" && item.failReason != "")
        || (item.progress == "100%" && item.status == "FAILURE");
      var won := writeOk && old(row.stored.status) == old(task.status);
      && user.quota == old(user.quota) + (if fails && won && creditOk then old(task.quota) else 0)
      && (fails && won ==> row.stored.progress == "100%" && row.stored.quota == old(task.quota))
    // what a new response leaves in the row
    ensures writeOk && old(row.stored.status) == old(task.status) && row.stored != old(row.stored) ==>
      var timedOut := late && old(task.progress) != "100%";
      var fails := timedOut || (item.progress != "100%" && item.failReason != "")
        || (item.progress == "100%" && item.status == "FAILURE");
      && row.stored.status == (if timedOut then "FAILURE" else item.status)
      && row.stored.failReason == (if timedOut then "上游任务超时（超过1小时）" else item.failReason)
      && row.stored.progress == (if fails then "100%" else item.progress)
      && row.stored.details == item.details && row.stored.code == 1
      && row.stored.videoUrls == (if item.videoUrls == [] then "" else encode(item.videoUrls))
  {
    var responseItem := item;
    if late && task.progress != FINISHED {
      responseItem := responseItem.(failReason := TIMED_OUT);
      responseItem := responseItem.(status := FAILURE);
    }
    if !NeedUpdate(task.Value(), responseItem, encode) {
      return;
    }
    var preStatus := task.status;
    var shouldReturnQuota := task.TakeOver(responseItem, encode);
    if writeOk {
      var won := task.UpdateWithStatus(row, preStatus);
      if won && shouldReturnQuota && creditOk {
        user.quota := user.quota + task.quota;
      }
    }
  }

  // ---------- one task, many pollers ----------

  /** What the upstream may send for the task, whether the hour may pass, and whether the
      task may be failed in bulk when its channel is gone. */
  datatype Policy = Policy(sends: Response -> bool, late: bool, bulk: bool, encode: Encoding)

  /** The stored task, the copies, how often it was refunded, and the user's balance. */
  datatype State = State(row: Task, copies: seq<Task>, refunds: nat, balance: int)

  datatype Step =
    | Fetch
    | Process(i: nat, item: Response, late: bool, writeOk: bool, creditOk: bool)
    | BulkFail(reason: string)

  /** Only open tasks are fetched; each copy meets one response. */
  predicate Enabled(p: Policy, s: State, step: Step) {
    match step
    case Fetch => s.row.progress != FINISHED
    case Process(i, item, late, _, _) => i < |s.copies| && p.sends(item) && (late ==> p.late)
    case BulkFail(_) => p.bulk
  }

  function Remove(copies: seq<Task>, i: nat): seq<Task>
    requires i < |copies|
  {
    copies[..i] + copies[i + 1..]
  }

  function Apply(p: Policy, s: State, step: Step): State
    requires Enabled(p, s, step)
  {
    match step
    case Fetch => s.(copies := s.copies + [s.row])
    case Process(i, item, late, writeOk, creditOk) =>
      var outcome := Handle(s.copies[i], s.row, item, late, writeOk, creditOk, p.encode);
      State(outcome.row, Remove(s.copies, i), s.refunds + (if outcome.refund != 0 then 1 else 0),
            s.balance + outcome.refund)
    case BulkFail(reason) => s.(row := s.row.(status := FAILURE, progress := FINISHED, failReason := reason))
  }

  predicate Runs(p: Policy, initial: Task, funds: int, steps: seq<Step>)
    decreases |steps|, 0
  {
    steps == []
    || (Runs(p, initial, funds, Most(steps)) && Enabled(p, After(p, initial, funds, Most(steps)), Last(steps)))
  }

  function After(p: Policy, initial: Task, funds: int, steps: seq<Step>): State
    requires Runs(p, initial, funds, steps)
    decreases |steps|, 1
  {
    if steps == [] then State(initial, [], 0, funds) else Apply(p, After(p, initial, funds, Most(steps)), Last(steps))
  }

  /** The responses an open copy can meet, the override included. */
  ghost predicate Possible(p: Policy, r: Response) {
    p.sends(r) || (p.late && exists item :: p.sends(item) && r == TimedOut(item))
  }

  function TimedOut(item: Response): Response {
    item.(failReason := TIMED_OUT, status := FAILURE)
  }

  /** The statuses with which the task can be stored while still open. */
  ghost predicate OpenStatus(p: Policy, initial: Task, status: string) {
    status == initial.status || exists r :: Possible(p, r) && Unfinishing(r) && r.status == status
  }

  /** The condition: no failing response leaves a status that an open task can have. */
  ghost predicate Separated(p: Policy, initial: Task) {
    forall r :: Possible(p, r) && Refunding(r) ==>
      !OpenStatus(p, initial, r.status) && (p.bulk ==> !OpenStatus(p, initial, FAILURE))
  }

  // ---------- the money ----------

  ghost predicate MoneyInv(initial: Task, funds: int, s: State) {
    && s.row.quota == initial.quota
    && (forall i :: 0 <= i < |s.copies| ==> s.copies[i].quota == initial.quota)
    && s.balance == funds + s.refunds * initial.quota
  }

  lemma MoneyKept(p: Policy, initial: Task, funds: int, s: State, step: Step)
    requires MoneyInv(initial, funds, s) && Enabled(p, s, step)
    ensures MoneyInv(initial, funds, Apply(p, s, step))
  {
    var s' := Apply(p, s, step);
    assert s'.refunds == s.refunds + 1 ==> s'.refunds * initial.quota == s.refunds * initial.quota + initial.quota;
  }

  /** In every run, whatever fails: each refund gives back exactly the quota, nothing else
      moves the balance, and the quota itself never changes. */
  lemma {:induction false} BalanceCountsRefunds(p: Policy, initial: Task, funds: int, steps: seq<Step>)
    requires Runs(p, initial, funds, steps)
    ensures var s := After(p, initial, funds, steps);
      MoneyInv(initial, funds, s) && s.balance == funds + s.refunds * initial.quota && s.row.quota == initial.quota
  {
    if steps != [] {
      BalanceCountsRefunds(p, initial, funds, Most(steps));
      MoneyKept(p, initial, funds, After(p, initial, funds, Most(steps)), Last(steps));
    }
  }

  // ---------- the condition suffices ----------

  ghost predicate Inv(p: Policy, initial: Task, s: State) {
    && (forall i :: 0 <= i < |s.copies| ==> IsOpen(p, initial, s.copies[i]))
    && (s.row.progress != FINISHED ==> IsOpen(p, initial, s.row))
    && s.refunds <= 1
    && (s.refunds == 1 ==> s.row.progress == FINISHED && !OpenStatus(p, initial, s.row.status)
                           && exists r :: Possible(p, r) && Refunding(r))
  }

  ghost predicate IsOpen(p: Policy, initial: Task, t: Task) {
    t.progress != FINISHED && OpenStatus(p, initial, t.status)
  }

  lemma InvKept(p: Policy, initial: Task, s: State, step: Step)
    requires Separated(p, initial) && Inv(p, initial, s) && Enabled(p, s, step)
    ensures Inv(p, initial, Apply(p, s, step))
  {
    if step.Process? {
      var copy := s.copies[step.i];
      var r := Effective(copy, step.item, step.late);
      assert IsOpen(p, initial, copy);
      assert r == if step.late then TimedOut(step.item) else step.item;
      assert Possible(p, r);
      assert Unfinishing(r) ==> OpenStatus(p, initial, r.status);
    }
  }

  lemma {:induction false} InvAlways(p: Policy, initial: Task, funds: int, steps: seq<Step>)
    requires Separated(p, initial) && initial.progress != FINISHED && Runs(p, initial, funds, steps)
    ensures Inv(p, initial, After(p, initial, funds, steps))
  {
    if steps != [] {
      InvAlways(p, initial, funds, Most(steps));
      InvKept(p, initial, After(p, initial, funds, Most(steps)), Last(steps));
    }
  }

  // ---------- and is needed ----------

  lemma Extend(p: Policy, initial: Task, funds: int, steps: seq<Step>, step: Step)
    requires Runs(p, initial, funds, steps) && Enabled(p, After(p, initial, funds, steps), step)
    ensures Runs(p, initial, funds, steps + [step])
    ensures After(p, initial, funds, steps + [step]) == Apply(p, After(p, initial, funds, steps), step)
  {
    assert Most(steps + [step]) == steps && Last(steps + [step]) == step;
  }

  ghost predicate Delivers(p: Policy, r: Response, item: Response, late: bool) {
    p.sends(item) && (late ==> p.late) && r == if late then TimedOut(item) else item
  }

  lemma HasItem(p: Policy, r: Response) returns (item: Response, late: bool)
    requires Possible(p, r)
    ensures Delivers(p, r, item, late)
  {
    if p.sends(r) {
      item, late := r, false;
    } else {
      item :| p.sends(item) && r == TimedOut(item);
      late := true;
    }
  }

  /** Every open status can be stored without a refund. */
  lemma ReachOpen(p: Policy, initial: Task, funds: int, status: string) returns (steps: seq<Step>)
    requires initial.progress != FINISHED && OpenStatus(p, initial, status)
    ensures Runs(p, initial, funds, steps)
    ensures var s := After(p, initial, funds, steps);
      s.copies == [] && s.refunds == 0 && s.balance == funds && s.row.progress != FINISHED && s.row.status == status
      && s.row.quota == initial.quota
  {
    steps := [];
    if status != initial.status {
      var r :| Possible(p, r) && Unfinishing(r) && r.status == status;
      var item, late := HasItem(p, r);
      Extend(p, initial, funds, steps, Fetch);
      steps := steps + [Fetch];
      assert After(p, initial, funds, steps) == State(initial, [initial], 0, funds);
      Extend(p, initial, funds, steps, Process(0, item, late, true, true));
      steps := steps + [Process(0, item, late, true, true)];
    }
  }

  /** Two copies with one open status, and the status comes back: both refund. */
  lemma RefundTwice(p: Policy, initial: Task, funds: int, status: string, r: Response) returns (steps: seq<Step>)
    requires initial.progress != FINISHED && initial.quota != 0
    requires OpenStatus(p, initial, status) && Possible(p, r) && Refunding(r)
    requires status == r.status || (p.bulk && status == FAILURE)
    ensures Runs(p, initial, funds, steps) && After(p, initial, funds, steps).refunds == 2
    ensures After(p, initial, funds, steps).balance == funds + 2 * initial.quota
  {
    steps := ReachOpen(p, initial, funds, status);
    var row := After(p, initial, funds, steps).row;
    var item, late := HasItem(p, r);
    var process := Process(0, item, late, true, true);
    Extend(p, initial, funds, steps, Fetch);
    steps := steps + [Fetch];
    Extend(p, initial, funds, steps, Fetch);
    steps := steps + [Fetch];
    assert After(p, initial, funds, steps) == State(row, [row, row], 0, funds);
    Extend(p, initial, funds, steps, process);
    steps := steps + [process];
    assert After(p, initial, funds, steps) == State(Updated(row, r, p.encode), [row], 1, funds + initial.quota);
    if status != r.status {
      Extend(p, initial, funds, steps, BulkFail(""));
      steps := steps + [BulkFail("")];
    }
    Extend(p, initial, funds, steps, process);
    steps := steps + [process];
  }

  /** A task is refunded at most once in every run exactly when no failing response leaves
      a status that an open task can have. */
  lemma RefundedOnceIff(p: Policy, initial: Task, funds: int)
    requires initial.progress != FINISHED && initial.quota != 0
    ensures Separated(p, initial) <==>
      forall steps :: Runs(p, initial, funds, steps) ==> After(p, initial, funds, steps).refunds <= 1
  {
    if Separated(p, initial) {
      forall steps | Runs(p, initial, funds, steps)
        ensures After(p, initial, funds, steps).refunds <= 1
      {
        InvAlways(p, initial, funds, steps);
      }
    } else {
      var r :| Possible(p, r) && Refunding(r)
        && (OpenStatus(p, initial, r.status) || (p.bulk && OpenStatus(p, initial, FAILURE)));
      var steps := RefundTwice(p, initial, funds, if OpenStatus(p, initial, r.status) then r.status else FAILURE, r);
      assert After(p, initial, funds, steps).refunds == 2;
    }
  }

  /** Then the user ends with what they had, or with the quota of the task more. */
  lemma RefundedOnceBalance(p: Policy, initial: Task, funds: int, steps: seq<Step>)
    requires Separated(p, initial) && initial.progress != FINISHED && Runs(p, initial, funds, steps)
    ensures var s := After(p, initial, funds, steps);
      s.balance == funds || (s.balance == funds + initial.quota && s.row.progress == "100%")
  {
    InvAlways(p, initial, funds, steps);
    BalanceCountsRefunds(p, initial, funds, steps);
    var refunds := After(p, initial, funds, steps).refunds;
    assert refunds == 0 || refunds == 1;
  }

  // ---------- changing the status is not enough ----------

  /** Every step that refunds also changes the stored status. */
  predicate RefundsChangeStatus(p: Policy, initial: Task, funds: int, steps: seq<Step>)
    requires Runs(p, initial, funds, steps)
  {
    steps == []
    || (&& RefundsChangeStatus(p, initial, funds, Most(steps))
        && var before, after := After(p, initial, funds, Most(steps)), After(p, initial, funds, steps);
           (after.refunds > before.refunds ==> after.row.status != before.row.status))
  }

  lemma ExtendChanging(p: Policy, initial: Task, funds: int, steps: seq<Step>, step: Step)
    requires Runs(p, initial, funds, steps) && Enabled(p, After(p, initial, funds, steps), step)
      && RefundsChangeStatus(p, initial, funds, steps)
    requires var before := After(p, initial, funds, steps);
      Apply(p, before, step).refunds > before.refunds ==> Apply(p, before, step).row.status != before.row.status
    ensures Runs(p, initial, funds, steps + [step]) && RefundsChangeStatus(p, initial, funds, steps + [step])
    ensures After(p, initial, funds, steps + [step]) == Apply(p, After(p, initial, funds, steps), step)
  {
    assert Most(steps + [step]) == steps && Last(steps + [step]) == step;
  }

  /** An open task reports `a`, is copied, and moves on to `b`. */
  lemma StaleCopy(p: Policy, initial: Task, funds: int, a: Response, b: Response) returns (steps: seq<Step>)
    requires initial.progress != FINISHED && initial.quota != 0 && p.sends(a) && p.sends(b)
    requires Unfinishing(a) && Unfinishing(b) && a.status != initial.status && b.status != a.status
    ensures Runs(p, initial, funds, steps) && RefundsChangeStatus(p, initial, funds, steps)
    ensures var atA := Updated(initial, a, p.encode);
      After(p, initial, funds, steps) == State(Updated(atA, b, p.encode), [atA], 0, funds)
  {
    steps := [];
    ExtendChanging(p, initial, funds, steps, Fetch);
    steps := steps + [Fetch];
    assert After(p, initial, funds, steps) == State(initial, [initial], 0, funds);
    ExtendChanging(p, initial, funds, steps, Process(0, a, false, true, true));
    steps := steps + [Process(0, a, false, true, true)];
    var atA := Updated(initial, a, p.encode);
    assert After(p, initial, funds, steps) == State(atA, [], 0, funds);
    ExtendChanging(p, initial, funds, steps, Fetch);
    steps := steps + [Fetch];
    ExtendChanging(p, initial, funds, steps, Fetch);
    steps := steps + [Fetch];
    assert After(p, initial, funds, steps) == State(atA, [atA, atA], 0, funds);
    ExtendChanging(p, initial, funds, steps, Process(1, b, false, true, true));
    steps := steps + [Process(1, b, false, true, true)];
  }

  /** A stale copy can win when its status returns.  Here both refunds change the stored
      status and no finished task is fetched, and the task is refunded twice: the task
      fails with the status of the stale copy, which then fails it again. */
  lemma StatusReturns(p: Policy, initial: Task, funds: int,
                      a: Response, b: Response, fail: Response, failAgain: Response)
      returns (steps: seq<Step>)
    requires initial.progress != FINISHED && initial.quota != 0
    requires p.sends(a) && p.sends(b) && p.sends(fail) && p.sends(failAgain)
    requires Unfinishing(a) && Unfinishing(b) && Refunding(fail) && Refunding(failAgain)
    requires a.status != initial.status && b.status != a.status && fail.status == a.status
      && failAgain.status != a.status
    ensures Runs(p, initial, funds, steps) && RefundsChangeStatus(p, initial, funds, steps)
    ensures After(p, initial, funds, steps).refunds == 2
    ensures After(p, initial, funds, steps).balance == funds + 2 * initial.quota
  {
    steps := StaleCopy(p, initial, funds, a, b);
    var atA := Updated(initial, a, p.encode);
    var atB := Updated(atA, b, p.encode);
    ExtendChanging(p, initial, funds, steps, Fetch);
    steps := steps + [Fetch];
    assert After(p, initial, funds, steps) == State(atB, [atA, atB], 0, funds);
    ExtendChanging(p, initial, funds, steps, Process(1, fail, false, true, true));
    steps := steps + [Process(1, fail, false, true, true)];
    assert After(p, initial, funds, steps) == State(Updated(atB, fail, p.encode), [atA], 1, funds + initial.quota);
    ExtendChanging(p, initial, funds, steps, Process(0, failAgain, false, true, true));
    steps := steps + [Process(0, failAgain, false, true, true)];
  }

  // ---------- a single poller ----------

  datatype Item = Item(response: Response, late: bool, writeOk: bool, creditOk: bool)

  datatype Polled = Polled(row: Task, refunds: nat, balance: int)

  /** Round after round: an open task is fetched and meets one response item. */
  function Polls(initial: Task, funds: int, items: seq<Item>, encode: Encoding): Polled {
    if items == [] then Polled(initial, 0, funds)
    else
      var before, item := Polls(initial, funds, Most(items), encode), Last(items);
      if before.row.progress == FINISHED then before
      else
        var outcome := Handle(before.row, before.row, item.response, item.late, item.writeOk, item.creditOk, encode);
        Polled(outcome.row, before.refunds + (if outcome.refund != 0 then 1 else 0), before.balance + outcome.refund)
  }

  /** One poller, one item per task and round: the quota is given back at most once, and
      only for a task that is finished from then on, whatever the statuses. */
  lemma {:induction false} SinglePollerOnce(initial: Task, funds: int, items: seq<Item>, encode: Encoding)
    ensures var end := Polls(initial, funds, items, encode);
      && end.row.quota == initial.quota
      && ((end.refunds == 0 && end.balance == funds)
          || (end.refunds == 1 && end.balance == funds + initial.quota
              && end.row.progress == "100%" && initial.quota != 0))
  {
    if items != [] {
      SinglePollerOnce(initial, funds, Most(items), encode);
    }
  }

  /** The poll that meets a failure of an open task ends with the task finished and, when
      its save and the credit work, the quota given back. */
  lemma FailureMet(initial: Task, funds: int, items: seq<Item>, encode: Encoding)
    requires items != []
    ensures var before, end, item := Polls(initial, funds, Most(items), encode), Polls(initial, funds, items, encode),
        Last(items);
      && var fails := item.late || (item.response.progress != "100%" && item.response.failReason != "")
           || (item.response.progress == "100%" && item.response.status == "FAILURE");
      before.row.progress != "100%" ==>
        && (fails && item.writeOk ==> end.row.progress == "100%")
        && end.balance == before.balance + if fails && item.writeOk && item.creditOk then initial.quota else 0
  {
    SinglePollerOnce(initial, funds, Most(items), encode);
  }

  /** The same item twice in one response refunds an open task twice exactly when it gives
      a reason for failure without the final progress. */
  lemma RepeatedItemIff(task: Task, r: Response, encode: Encoding)
    requires task.progress != FINISHED && task.quota != 0
    ensures var first := Handle(task, task, r, false, true, true, encode);
      var second := Handle(first.copy, first.row, r, false, true, true, encode);
      (first.refund != 0 && second.refund != 0) <==> r.progress != FINISHED && r.failReason != ""
  {
  }
}
