/** Billing of asynchronous video tasks: a quota is charged up front, a success is
    re-priced by its tokens, and a failure is refunded.  Each poll works on a copy of the
    stored task and saves it whatever is stored by then; every database call may fail. */
module VideoBilling {
  import opened Basics
  import opened TaskStatus

  datatype Task = Task(
    status: string, progress: string, quota: int, startTime: int, finishTime: int, failReason: string)

  /** One poll: the answer, the price of its tokens (when it has tokens and the model is
      priced by ratio), the time, and which database calls succeed. */
  datatype Poll = Poll(info: Info, actualQuota: Option<int>, now: int, chargeOk: bool, updateOk: bool, refundOk: bool)

  datatype State = State(row: Task, balance: int)

  /** An answer without a status is a failure. */
  function Answered(info: Info): Info {
    if info.status == "" then Info(FAILURE, "", "", "upstream returned empty status") else info
  }

  predicate IsInline(url: string) {
    |url| > 5 && url[..5] == "data:"
  }

  /** The status a poll reports. */
  function Reported(p: Poll): string {
    Answered(p.info).status
  }

  /** What re-pricing a success moves from the balance to the task's quota. */
  function Delta(row: Task, p: Poll): int {
    if Reported(p) == SUCCESS && p.actualQuota.Some? && p.chargeOk then p.actualQuota.value - row.quota else 0
  }

  /** The copy before it is saved. */
  function Worked(row: Task, p: Poll): Task {
    var info := Answered(p.info);
    Task(
      info.status,
      if info.status != FAILURE && info.progress != "" then info.progress else ProgressOf(info.status),
      row.quota + Delta(row, p),
      if info.status == IN_PROGRESS && row.startTime == 0 then p.now else row.startTime,
      if Final(info.status) && row.finishTime == 0 then p.now else row.finishTime,
      if info.status == SUCCESS && !IsInline(info.url) then info.url
      else if info.status == FAILURE then info.reason
      else row.failReason)
  }

  /** The full refund of a poll. */
  function Refund(row: Task, p: Poll): int {
    if Reported(p) == FAILURE && row.status != FAILURE && p.updateOk && p.refundOk then row.quota else 0
  }

  /** A poll with a copy that may be older than the row. */
  function NextWith(s: State, copy: Task, p: Poll): State {
    if !Known(Reported(p)) then s
    else State(if p.updateOk then Worked(copy, p) else s.row, s.balance - Delta(copy, p) + Refund(copy, p))
  }

  /** A poll with a copy of the row as it is. */
  function Next(s: State, p: Poll): State {
    NextWith(s, s.row, p)
  }

  /** What a poll leaves of its copy. */
  function Touched(copy: Task, p: Poll): Task {
    if Known(Reported(p)) then Worked(copy, p) else copy.(status := Reported(p))
  }

  /** What a saved poll leaves in the row, status by status. */
  lemma PollShows(s: State, copy: Task, p: Poll)
    requires NextWith(s, copy, p).row != s.row
      || (p.updateOk && p.info.status in {"", "SUBMITTED", "QUEUED", "IN_PROGRESS", "SUCCESS", "FAILURE"})
    ensures var t, info := NextWith(s, copy, p).row, p.info;
      && p.updateOk
      && t.status == (if info.status == "" then "FAILURE" else info.status)
      && t.status in {"SUBMITTED", "QUEUED", "IN_PROGRESS", "SUCCESS", "FAILURE"}
      && t.progress == (if t.status == "FAILURE" then "100%"
                        else if info.progress != "" then info.progress
                        else if t.status == "SUBMITTED" then "10%"
                        else if t.status == "QUEUED" then "20%"
                        else if t.status == "IN_PROGRESS" then "30%"
                        else "100%")
      && t.startTime == (if t.status == "IN_PROGRESS" && copy.startTime == 0 then p.now else copy.startTime)
      && t.finishTime == (if (t.status == "SUCCESS" || t.status == "FAILURE") && copy.finishTime == 0 then p.now
                          else copy.finishTime)
      && t.failReason == (if t.status == "FAILURE" && info.status == "" then "upstream returned empty status"
                          else if t.status == "FAILURE" then info.reason
                          else if t.status == "SUCCESS" && !("data:" < info.url) then info.url
                          else copy.failReason)
  {
  }

  /** What a poll moves: a success with a price the difference to it, between balance and
      quota; a failure of a copy that was none the quota back, if it is saved. */
  lemma PollMoves(s: State, copy: Task, p: Poll)
    requires p.info.status == "SUCCESS" || p.info.status == "FAILURE"
    ensures var s' := NextWith(s, copy, p);
      && (p.info.status == "SUCCESS" && p.actualQuota.Some? && p.chargeOk ==>
            s'.balance == s.balance - (p.actualQuota.value - copy.quota)
            && (p.updateOk ==> s'.row.quota == p.actualQuota.value))
      && (p.info.status == "SUCCESS" && !(p.actualQuota.Some? && p.chargeOk) ==> s'.balance == s.balance)
      && (p.info.status == "FAILURE" ==>
            s'.balance == s.balance
              + if copy.status != "FAILURE" && p.updateOk && p.refundOk then copy.quota else 0)
  {
  }

  class Row {
    var stored: Task

    constructor (stored: Task)
      ensures this.stored == stored
    {
      this.stored := stored;
    }
  }

  class User {
    var balance: int

    constructor (balance: int)
      ensures this.balance == balance
    {
      this.balance := balance;
    }
  }

  class VideoTask {
    var status: string
    var progress: string
    var quota: int
    var startTime: int
    var finishTime: int
    var failReason: string

    function Value(): Task
      reads this
    {
      Task(status, progress, quota, startTime, finishTime, failReason)
    }

    constructor (t: Task)
      ensures Value() == t
    {
      status, progress, quota, startTime, finishTime, failReason :=
        t.status, t.progress, t.quota, t.startTime, t.finishTime, t.failReason;
    }

    /** Charging or returning the difference to the actual price. */
    method Settle(user: User, actualQuota: int, chargeOk: bool)
      modifies this`quota, user
      ensures quota == if chargeOk then actualQuota else old(quota)
      ensures user.balance == old(user.balance) - (quota - old(quota))
    {
      var quotaDelta := actualQuota - quota;
      if quotaDelta > 0 {
        if chargeOk {
          user.balance := user.balance - quotaDelta;
          quota := actualQuota;
        }
      } else if quotaDelta < 0 {
        var refundQuota := -quotaDelta;
        if chargeOk {
          user.balance := user.balance + refundQuota;
          quota := actualQuota;
        }
      }
    }

    /** The status switch; an unknown status is an error and nothing is saved. */
    method TakeOver(user: User, p: Poll) returns (err: bool, shouldRefund: bool)
      modifies this, user
      ensures err <==> !Known(Reported(p))
      ensures Value() == Touched(old(Value()), p)
      ensures err ==> user.balance == old(user.balance)
      ensures !err ==> user.balance == old(user.balance) - Delta(old(Value()), p)
      ensures !err ==> (shouldRefund <==> Reported(p) == FAILURE && old(status) != FAILURE && old(quota) != 0)
    {
      var taskResult, actual := p.info, p.actualQuota;
      if taskResult.status == "" {
        taskResult, actual := Info(FAILURE, "", "", "upstream returned empty status"), None;
      }
      err, shouldRefund := false, false;
      var preStatus := status;
      status := taskResult.status;
      if taskResult.status == SUBMITTED {
        progress := "10%";
      } else if taskResult.status == QUEUED {
        progress := "20%";
      } else if taskResult.status == IN_PROGRESS {
        progress := "30%";
        if startTime == 0 {
          startTime := p.now;
        }
      } else if taskResult.status == SUCCESS {
        progress := COMPLETE;
        if finishTime == 0 {
          finishTime := p.now;
        }
        if !IsInline(taskResult.url) {
          failReason := taskResult.url;
        }
        if actual.Some? {
          Settle(user, actual.value, p.chargeOk);
        }
      } else if taskResult.status == FAILURE {
        progress := COMPLETE;
        if finishTime == 0 {
          finishTime := p.now;
        }
        failReason := taskResult.reason;
        taskResult := taskResult.(progress := COMPLETE);
        if quota != 0 && preStatus != FAILURE {
          shouldRefund := true;
        }
      } else {
        return true, false;
      }
      if taskResult.progress != "" {
        progress := taskResult.progress;
      }
    }
  }

  /** updateVideoSingleTask, for a copy fetched some time before. */
  method UpdateVideoSingleTask(task: VideoTask, row: Row, user: User, p: Poll) returns (err: bool)
    modifies task, row, user
    ensures State(row.stored, user.balance) == NextWith(old(State(row.stored, user.balance)), old(task.Value()), p)
    ensures task.Value() == Touched(old(task.Value()), p)
    ensures err <==> !Known(Reported(p))
  {
    var quota := task.quota;
    var shouldRefund;
    err, shouldRefund := task.TakeOver(user, p);
    if err {
      return;
    }
    if p.updateOk {
      row.stored := task.Value();
    } else {
      shouldRefund := false;
    }
    if shouldRefund && p.refundOk {
      user.balance := user.balance + quota;
    }
  }

  // ---------- the ledger ----------

  /** What the user should have paid for the task: its quota, or nothing once it failed. */
  function Owed(row: Task): int {
    if row.status == FAILURE then 0 else row.quota
  }

  /** The user's money, in the balance or in the task. */
  function Worth(s: State): int {
    s.balance + Owed(s.row)
  }

  /** By how much a poll makes the books disagree: a charge whose save fails, a refund that
      fails, a failed task that comes back. */
  function Drift(row: Task, p: Poll): int {
    if !Known(Reported(p)) then 0
    else if !p.updateOk then -Delta(row, p)
    else if Reported(p) == FAILURE then if row.status != FAILURE && !p.refundOk then -row.quota else 0
    else if row.status == FAILURE then row.quota
    else 0
  }

  lemma PollDrifts(s: State, p: Poll)
    ensures Worth(Next(s, p)) == Worth(s) + Drift(s.row, p)
  {
  }

  function After(s: State, polls: seq<Poll>): State {
    if polls == [] then s else Next(After(s, Most(polls)), Last(polls))
  }

  function TotalDrift(s: State, polls: seq<Poll>): int {
    if polls == [] then 0 else TotalDrift(s, Most(polls)) + Drift(After(s, Most(polls)).row, Last(polls))
  }

  /** Over any polls, with any failures: what the user has and owes changes by exactly the
      drifts. */
  lemma {:induction false} WorthDrifts(s: State, polls: seq<Poll>)
    ensures Worth(After(s, polls)) == Worth(s) + TotalDrift(s, polls)
  {
    if polls != [] {
      WorthDrifts(s, Most(polls));
      PollDrifts(After(s, Most(polls)), Last(polls));
    }
  }

  /** A poll keeps the books exactly when: its charge is saved, its refund succeeds, and it
      does not bring back a failed task that has a quota. */
  lemma PollBalancedIff(s: State, p: Poll)
    ensures Worth(Next(s, p)) == Worth(s) <==>
      (Known(Reported(p)) ==>
         if !p.updateOk then Delta(s.row, p) == 0
         else if Reported(p) == FAILURE then s.row.status == FAILURE || s.row.quota == 0 || p.refundOk
         else s.row.status != FAILURE || s.row.quota == 0)
  {
  }

  /** Saves and refunds succeed, and a failed task is not reported otherwise later. */
  predicate Regular(s: State, polls: seq<Poll>) {
    polls == []
    || (&& Regular(s, Most(polls))
        && Last(polls).updateOk && Last(polls).refundOk
        && (After(s, Most(polls)).row.status == FAILURE && Known(Reported(Last(polls))) ==>
              Reported(Last(polls)) == FAILURE))
  }

  /** Then the net payment is the task's quota while it is not failed and nothing after. */
  lemma {:induction false} NetPayment(s: State, polls: seq<Poll>)
    requires Regular(s, polls) && s.row.status != FAILURE
    ensures var end := After(s, polls);
      s.row.quota + (s.balance - end.balance) == if end.row.status == FAILURE then 0 else end.row.quota
  {
    if polls != [] {
      NetPayment(s, Most(polls));
    }
  }

  /** Once failed, a task moves no money, however often the failure is reported. */
  lemma {:induction false} FailureRepeats(s: State, polls: seq<Poll>)
    requires s.row.status == FAILURE && forall p :: p in polls ==> Reported(p) == FAILURE
    ensures After(s, polls).balance == s.balance && After(s, polls).row.quota == s.row.quota
      && After(s, polls).row.status == FAILURE
  {
    if polls != [] {
      assert forall p :: p in Most(polls) ==> p in polls;
      assert Last(polls) in polls;
      FailureRepeats(s, Most(polls));
    }
  }

  predicate SuccessAt(p: Poll, actual: int) {
    p.info.status == SUCCESS && p.actualQuota == Some(actual) && p.chargeOk
  }

  /** Success polls at one price charge the difference once, at the first saved one. */
  lemma {:induction false} SuccessRepeats(s: State, polls: seq<Poll>, actual: int)
    requires polls != [] && forall p :: p in polls ==> SuccessAt(p, actual) && p.updateOk
    ensures After(s, polls).balance == s.balance - (actual - s.row.quota) && After(s, polls).row.quota == actual
  {
    assert Last(polls) in polls;
    if Most(polls) != [] {
      assert forall p :: p in Most(polls) ==> p in polls;
      SuccessRepeats(s, Most(polls), actual);
    }
  }

  /** As long as the save fails, every success poll charges the difference again. */
  lemma {:induction false} UnsavedChargesRepeat(s: State, polls: seq<Poll>, actual: int)
    requires forall p :: p in polls ==> SuccessAt(p, actual) && !p.updateOk
    ensures After(s, polls).row == s.row && After(s, polls).balance == s.balance - |polls| * (actual - s.row.quota)
  {
    if polls != [] {
      assert Last(polls) in polls;
      assert forall p :: p in Most(polls) ==> p in polls;
      UnsavedChargesRepeat(s, Most(polls), actual);
      assert |polls| * (actual - s.row.quota) == |Most(polls)| * (actual - s.row.quota) + (actual - s.row.quota);
    }
  }

  // ---------- many pollers with old copies ----------

  datatype Books = Books(s: State, copies: seq<Task>)

  /** A poller fetches a copy of the unfinished task, or polls with a copy it has. */
  datatype Step = Fetch | Work(i: nat, p: Poll)

  predicate CanStep(b: Books, step: Step) {
    match step
    case Fetch => Unfinished(b.s.row.status, b.s.row.progress)
    case Work(i, _) => i < |b.copies|
  }

  function AfterStep(b: Books, step: Step): Books
    requires CanStep(b, step)
  {
    match step
    case Fetch => b.(copies := b.copies + [b.s.row])
    case Work(i, p) => Books(NextWith(b.s, b.copies[i], p), b.copies[i := Touched(b.copies[i], p)])
  }

  ghost predicate IsRun(b: Books, steps: seq<Step>)
    decreases |steps|, 0
  {
    steps == [] || (IsRun(b, Most(steps)) && CanStep(AfterSteps(b, Most(steps)), Last(steps)))
  }

  ghost function AfterSteps(b: Books, steps: seq<Step>): Books
    requires IsRun(b, steps)
    decreases |steps|, 1
  {
    if steps == [] then b else AfterStep(AfterSteps(b, Most(steps)), Last(steps))
  }

  /** A saved poll also replaces what is owed by the row with what is owed by its copy. */
  function StaleDrift(row: Task, copy: Task, p: Poll): int {
    Drift(copy, p) + if Known(Reported(p)) && p.updateOk then Owed(copy) - Owed(row) else 0
  }

  function StepDrift(b: Books, step: Step): int
    requires CanStep(b, step)
  {
    match step
    case Fetch => 0
    case Work(i, p) => StaleDrift(b.s.row, b.copies[i], p)
  }

  ghost function RunDrift(b: Books, steps: seq<Step>): int
    requires IsRun(b, steps)
  {
    if steps == [] then 0 else RunDrift(b, Most(steps)) + StepDrift(AfterSteps(b, Most(steps)), Last(steps))
  }

  lemma StalePollDrifts(s: State, copy: Task, p: Poll)
    ensures Worth(NextWith(s, copy, p)) == Worth(s) + StaleDrift(s.row, copy, p)
  {
    PollDrifts(s.(row := copy), p);
  }

  /** With any number of pollers, copies of any age and any failing calls: what the user has
      and owes changes by exactly the drifts. */
  lemma {:induction false} RunDrifts(b: Books, steps: seq<Step>)
    requires IsRun(b, steps)
    ensures Worth(AfterSteps(b, steps).s) == Worth(b.s) + RunDrift(b, steps)
  {
    if steps != [] {
      RunDrifts(b, Most(steps));
      var before := AfterSteps(b, Most(steps));
      match Last(steps) {
      case Fetch =>
      case Work(i, p) => StalePollDrifts(before.s, before.copies[i], p);
      }
    }
  }

  /** A poll that keeps the books when its copy is current keeps them with an old copy
      exactly when copy and row owe the same, or nothing is saved. */
  lemma StaleBalancedIff(s: State, copy: Task, p: Poll)
    requires Drift(copy, p) == 0
    ensures Worth(NextWith(s, copy, p)) == Worth(s)
       <==> (Known(Reported(p)) && p.updateOk ==> Owed(copy) == Owed(s.row))
  {
    StalePollDrifts(s, copy, p);
  }

  /** Every poll of the run works on a copy that equals the row. */
  ghost predicate Current(b: Books, steps: seq<Step>)
    requires IsRun(b, steps)
  {
    steps == []
    || (&& Current(b, Most(steps))
        && (Last(steps).Work? ==>
              var before := AfterSteps(b, Most(steps)); before.copies[Last(steps).i] == before.s.row))
  }

  function PollsOf(steps: seq<Step>): seq<Poll> {
    if steps == [] then []
    else if Last(steps).Work? then PollsOf(Most(steps)) + [Last(steps).p]
    else PollsOf(Most(steps))
  }

  /** Then the pollers together do what one poller does. */
  lemma {:induction false} CurrentRuns(b: Books, steps: seq<Step>)
    requires IsRun(b, steps) && Current(b, steps)
    ensures AfterSteps(b, steps).s == After(b.s, PollsOf(steps))
  {
    if steps != [] {
      CurrentRuns(b, Most(steps));
    }
  }

  predicate FailsAt(p: Poll) {
    Reported(p) == FAILURE && p.updateOk && p.refundOk
  }

  function Fails(p: Poll, n: nat): seq<Step> {
    if n == 0 then [] else Fails(p, n - 1) + [Work(n - 1, p)]
  }

  lemma {:induction false} Fetches(s: State, n: nat)
    requires Unfinished(s.row.status, s.row.progress)
    ensures IsRun(Books(s, []), Repeat(Fetch, n))
    ensures AfterSteps(Books(s, []), Repeat(Fetch, n)) == Books(s, Repeat(s.row, n))
  {
    if n > 0 {
      Fetches(s, n - 1);
      assert Most(Repeat(Fetch, n)) == Repeat(Fetch, n - 1);
    }
  }

  lemma {:induction false} RunsOn(b: Books, first: seq<Step>, second: seq<Step>)
    requires IsRun(b, first) && IsRun(AfterSteps(b, first), second)
    ensures IsRun(b, first + second)
    ensures AfterSteps(b, first + second) == AfterSteps(AfterSteps(b, first), second)
  {
    if second == [] {
      assert first + second == first;
    } else {
      RunsOn(b, first, Most(second));
      assert Most(first + second) == first + Most(second);
    }
  }

  lemma RefundedCopy(b: Books, i: nat, p: Poll)
    requires i < |b.copies| && Unfinished(b.copies[i].status, b.copies[i].progress) && FailsAt(p)
    ensures var b' := AfterStep(b, Work(i, p));
      && b'.s.balance == b.s.balance + b.copies[i].quota
      && |b'.copies| == |b.copies| && b'.copies[i + 1..] == b.copies[i + 1..]
  {
  }

  lemma {:induction false} CopiesRefund(b: Books, t: Task, k: nat, p: Poll)
    requires Unfinished(t.status, t.progress) && FailsAt(p)
    requires k <= |b.copies| && forall i :: 0 <= i < |b.copies| ==> b.copies[i] == t
    ensures IsRun(b, Fails(p, k))
    ensures var end := AfterSteps(b, Fails(p, k));
      && end.s.balance == b.s.balance + k * t.quota
      && |end.copies| == |b.copies| && end.copies[k..] == b.copies[k..]
  {
    if k > 0 {
      CopiesRefund(b, t, k - 1, p);
      var before := AfterSteps(b, Fails(p, k - 1));
      assert before.copies[k - 1] == before.copies[k - 1..][0] == b.copies[k - 1];
      RefundedCopy(before, k - 1, p);
      assert before.copies[k..] == before.copies[k - 1..][1..];
      assert k * t.quota == (k - 1) * t.quota + t.quota;
    }
  }

  /** Copies taken before the failure is stored are each refunded: `n` of them `n` times. */
  lemma EveryCopyRefunds(s: State, n: nat, p: Poll)
    requires Unfinished(s.row.status, s.row.progress) && FailsAt(p)
    ensures var steps := Repeat(Fetch, n) + Fails(p, n);
      IsRun(Books(s, []), steps) && AfterSteps(Books(s, []), steps).s.balance == s.balance + n * s.row.quota
  {
    Fetches(s, n);
    CopiesRefund(Books(s, Repeat(s.row, n)), s.row, n, p);
    RunsOn(Books(s, []), Repeat(Fetch, n), Fails(p, n));
  }
}
