/** The polling loop for asynchronous video tasks.  Pollers, the timeout sweep and user
    queries work on copies of the stored task; a status is written by compare-and-set on
    the status the copy had, and only the winner of a final status moves money.  A missing
    channel fails tasks without the guard.  Every database call may fail. */
module TaskPolling {
  import opened Basics
  import opened TaskStatus

  const LEGACY_CUTOFF := 1740182400

  datatype Task = Task(
    status: string, progress: string, quota: int, submitTime: int, startTime: int, finishTime: int,
    failReason: string, resultUrl: string, data: string)

  /** What the body of a reply without a status is: no JSON, the rate limit, another error,
      or nothing recognised. */
  datatype Body = NoJson | RateLimit | ErrorReply | Unrecognized

  /** `data` is the stored form of the body. */
  datatype Reply = NoReply | Reply(info: Info, body: Body, data: string)

  /** One poll: the reply, the settled price (none if not positive), the task's proxy
      address, the time, and which database calls succeed. */
  datatype Poll = Poll(reply: Reply, actual: int, proxy: string, now: int, writeOk: bool, fundOk: bool)

  /** One timeout: its reason and the one for tasks of the old system. */
  datatype Timeout = Timeout(reason: string, legacyReason: string, now: int, writeOk: bool, fundOk: bool)

  predicate IsData(url: string) {
    |url| >= 5 && url[..5] == "data:"
  }

  // ---------- one poll ----------

  /** What the reply says of the task; a reply without a status is read as an error. */
  function Answered(r: Reply): Option<Info> {
    if r.NoReply? then None
    else if r.info.status != "" then Some(r.info)
    else
      match r.body
      case NoJson => Some(r.info)
      case RateLimit => None
      case ErrorReply => Some(Info(FAILURE, "", "", "upstream returned error"))
      case Unrecognized => Some(Info(FAILURE, "", "", "upstream returned unrecognized message"))
  }

  predicate Reports(p: Poll, status: string) {
    Answered(p.reply).Some? && Answered(p.reply).value.status == status
  }

  predicate ReportsKnown(p: Poll) {
    Answered(p.reply).Some? && Known(Answered(p.reply).value.status)
  }

  function UrlOf(url: string, proxy: string): string {
    if IsData(url) || url == "" then proxy else url
  }

  /** The status switch. */
  function Switched(t: Task, info: Info, proxy: string, now: int): Task
    requires Known(info.status)
  {
    Task(
      info.status,
      if info.status != FAILURE && info.progress != "" then info.progress else ProgressOf(info.status),
      t.quota,
      t.submitTime,
      if info.status == IN_PROGRESS && t.startTime == 0 then now else t.startTime,
      if Final(info.status) && t.finishTime == 0 then now else t.finishTime,
      if info.status == FAILURE then info.reason else t.failReason,
      if info.status == SUCCESS then UrlOf(info.url, proxy) else t.resultUrl,
      t.data)
  }

  /** The copy of a known status, before it is saved. */
  function Worked(copy: Task, p: Poll): Task
    requires ReportsKnown(p)
  {
    Switched(copy.(data := p.reply.data), Answered(p.reply).value, p.proxy, p.now)
  }

  /** Compare-and-set on the status. */
  function Saved(row: Task, from: string, t: Task, ok: bool): Task {
    if ok && row.status == from then t else row
  }

  /** The poll's save of a final status succeeds. */
  predicate Wins(row: Task, copy: Task, p: Poll) {
    && ReportsKnown(p) && Final(Worked(copy, p).status) && copy.status != Worked(copy, p).status
    && p.writeOk && row.status == copy.status
  }

  /** A copy that is final already is billed without a guard. */
  predicate Bills(row: Task, copy: Task, p: Poll) {
    Wins(row, copy, p) || (ReportsKnown(p) && Final(copy.status) && Reports(p, copy.status))
  }

  function PolledRow(row: Task, copy: Task, p: Poll): Task {
    if !ReportsKnown(p) || Worked(copy, p) == copy then row else Saved(row, copy.status, Worked(copy, p), p.writeOk)
  }

  /** The money a poll gives to the user: the refund of a failure, or the pre-charge less
      the settled price. */
  function Paid(row: Task, copy: Task, p: Poll): int {
    if !Bills(row, copy, p) || !p.fundOk then 0
    else if Reports(p, FAILURE) then copy.quota
    else if p.actual > 0 then copy.quota - p.actual
    else 0
  }

  /** What a poll leaves of its copy; the settled price is not saved any more. */
  function Touched(row: Task, copy: Task, p: Poll): Task {
    if p.reply.NoReply? then copy
    else if Answered(p.reply).None? then copy.(data := p.reply.data)
    else if !ReportsKnown(p) then copy.(data := p.reply.data, status := Answered(p.reply).value.status)
    else if Reports(p, SUCCESS) && Bills(row, copy, p) && p.fundOk && p.actual > 0 then
      Worked(copy, p).(quota := p.actual)
    else Worked(copy, p)
  }

  // ---------- one timeout, one query ----------

  predicate Legacy(t: Task) {
    0 < t.submitTime < LEGACY_CUTOFF
  }

  function TimedOut(copy: Task, t: Timeout): Task {
    copy.(status := FAILURE, progress := COMPLETE, finishTime := t.now,
          failReason := if Legacy(copy) then t.legacyReason else t.reason)
  }

  function TimeoutPaid(row: Task, copy: Task, t: Timeout): int {
    if t.writeOk && row.status == copy.status && !Legacy(copy) && t.fundOk then copy.quota else 0
  }

  /** What a user's query makes of its copy: the upstream's status as it is. */
  function Refreshed(view: Task, info: Info, proxy: string): Task {
    var status := if info.status != "" then info.status else view.status;
    view.(status := status,
          progress := if info.progress != "" then info.progress else view.progress,
          resultUrl :=
            if IsData(info.url) then view.resultUrl
            else if info.url != "" then info.url
            else if status == SUCCESS then proxy
            else view.resultUrl)
  }

  function RefreshedRow(row: Task, view: Task, info: Info, proxy: string, ok: bool): Task {
    var t := Refreshed(view, info, proxy);
    if t == view then row else Saved(row, view.status, t, ok)
  }

  // ---------- in terms of the row ----------

  /** Reading an empty status: a reply that is no JSON is no task status at all, the rate
      limit changes nothing, and any other error is a failure. */
  lemma EmptyStatus(p: Poll)
    requires p.reply.Reply? && p.reply.info.status == ""
    ensures ReportsKnown(p) <==> p.reply.body == ErrorReply || p.reply.body == Unrecognized
    ensures ReportsKnown(p) ==> Reports(p, "FAILURE")
  {
  }

  /** The reply gives a known status, or none and an error. */
  predicate Usable(r: Reply) {
    r.Reply? && (r.info.status in {"SUBMITTED", "QUEUED", "IN_PROGRESS", "SUCCESS", "FAILURE"}
                 || (r.info.status == "" && (r.body == ErrorReply || r.body == Unrecognized)))
  }

  /** What a poll that changes the row, or is saved with a current copy, leaves in it. */
  lemma PollShows(row: Task, copy: Task, p: Poll)
    requires PolledRow(row, copy, p) != row || (row == copy && p.writeOk && Usable(p.reply))
    ensures Usable(p.reply) && p.writeOk && row.status == copy.status
    ensures var t, info := PolledRow(row, copy, p), p.reply.info;
      && t.status == (if info.status == "" then "FAILURE" else info.status)
      && (t.status == "FAILURE" ==>
            t.failReason == if info.status != "" then info.reason
                            else if p.reply.body == ErrorReply then "upstream returned error"
                            else "upstream returned unrecognized message")
      && t.status in {"SUBMITTED", "QUEUED", "IN_PROGRESS", "SUCCESS", "FAILURE"}
      && t.progress == (if t.status == "FAILURE" then "100%"
                        else if info.progress != "" then info.progress
                        else if t.status == "SUBMITTED" then "10%"
                        else if t.status == "QUEUED" then "20%"
                        else if t.status == "IN_PROGRESS" then "30%"
                        else "100%")
      && t.quota == copy.quota && t.submitTime == copy.submitTime && t.data == p.reply.data
    ensures var t, info := PolledRow(row, copy, p), p.reply.info;
      && t.startTime == (if t.status == "IN_PROGRESS" && copy.startTime == 0 then p.now else copy.startTime)
      && t.finishTime == (if (t.status == "SUCCESS" || t.status == "FAILURE") && copy.finishTime == 0 then p.now
                          else copy.finishTime)
      && (t.status != "FAILURE" ==> t.failReason == copy.failReason)
      && (t.status != "SUCCESS" ==> t.resultUrl == copy.resultUrl)
      && (t.status == "SUCCESS" ==>
            t.resultUrl == if info.url == "" || "data:" <= info.url then p.proxy else info.url)
  {
  }

  /** What a poll with a copy of an unfinished task pays: to the winner of a failure the
      quota, to the winner of a success the quota less the price, if there is one. */
  lemma PollPays(row: Task, copy: Task, p: Poll)
    requires copy.status != "SUCCESS" && copy.status != "FAILURE"
    ensures var won := p.writeOk && row.status == copy.status && p.fundOk;
      && (won && Reports(p, "FAILURE") ==> Paid(row, copy, p) == copy.quota)
      && (won && Reports(p, "SUCCESS") && p.actual > 0 ==> Paid(row, copy, p) == copy.quota - p.actual)
      && (!won || !(Reports(p, "FAILURE") || (Reports(p, "SUCCESS") && p.actual > 0)) ==> Paid(row, copy, p) == 0)
  {
  }

  /** A timeout fails the task as it was read; tasks submitted before 22 February 2026 get
      no refund. */
  lemma TimeoutShows(row: Task, copy: Task, t: Timeout)
    ensures var legacy := 0 < copy.submitTime < 1740182400;
      && TimedOut(copy, t) == copy.(status := "FAILURE", progress := "100%", finishTime := t.now,
                                    failReason := if legacy then t.legacyReason else t.reason)
      && TimeoutPaid(row, copy, t) ==
           if t.writeOk && row.status == copy.status && !legacy && t.fundOk then copy.quota else 0
  {
  }

  /** What a query that changes the row, or is saved over a current view, leaves in it: the
      upstream's status and progress, where it gives any, over what was read. */
  lemma RefreshShows(row: Task, view: Task, info: Info, proxy: string, ok: bool)
    requires RefreshedRow(row, view, info, proxy, ok) != row || (row == view && ok)
    ensures ok && row.status == view.status
    ensures var t := RefreshedRow(row, view, info, proxy, ok);
      && t == view.(status := t.status, progress := t.progress, resultUrl := t.resultUrl)
      && t.status == (if info.status == "" then view.status else info.status)
      && t.progress == (if info.progress == "" then view.progress else info.progress)
      && t.resultUrl == (if "data:" <= info.url then view.resultUrl
                         else if info.url != "" then info.url
                         else if t.status == "SUCCESS" then proxy else view.resultUrl)
  {
  }

  class Row {
    var stored: Task

    constructor (stored: Task)
      ensures this.stored == stored
    {
      this.stored := stored;
    }
  }

  class Account {
    var balance: int

    constructor (balance: int)
      ensures this.balance == balance
    {
      this.balance := balance;
    }
  }

  class VideoTask {
    var status: string
    var progress: string
    var quota: int
    const submitTime: int
    var startTime: int
    var finishTime: int
    var failReason: string
    var resultUrl: string
    var data: string

    function Value(): Task
      reads this
    {
      Task(status, progress, quota, submitTime, startTime, finishTime, failReason, resultUrl, data)
    }

    constructor (t: Task)
      ensures Value() == t
    {
      status, progress, quota, submitTime := t.status, t.progress, t.quota, t.submitTime;
      startTime, finishTime, failReason := t.startTime, t.finishTime, t.failReason;
      resultUrl, data := t.resultUrl, t.data;
    }

    method UpdateWithStatus(row: Row, fromStatus: string, writeOk: bool) returns (won: bool, err: bool)
      modifies row
      ensures row.stored == Saved(old(row.stored), fromStatus, Value(), writeOk)
      ensures won <==> writeOk && old(row.stored.status) == fromStatus
      ensures err <==> !writeOk
    {
      if !writeOk {
        return false, true;
      }
      won, err := row.stored.status == fromStatus, false;
      if won {
        row.stored := Value();
      }
    }

    /** The status switch; an unknown status is an error. */
    method TakeOver(info: Info, proxy: string, now: int) returns (err: bool, shouldRefund: bool, shouldSettle: bool)
      modifies this`status, this`progress, this`startTime, this`finishTime, this`failReason, this`resultUrl
      ensures err <==> !Known(info.status)
      ensures err ==> Value() == old(Value()).(status := info.status)
      ensures !err ==> Value() == Switched(old(Value()), info, proxy, now)
      ensures !err ==> (shouldRefund <==> info.status == FAILURE && quota != 0)
      ensures !err ==> (shouldSettle <==> info.status == SUCCESS)
    {
      err, shouldRefund, shouldSettle := false, false, false;
      var taskProgress := info.progress;
      status := info.status;
      if info.status == SUBMITTED {
        progress := "10%";
      } else if info.status == QUEUED {
        progress := "20%";
      } else if info.status == IN_PROGRESS {
        progress := "30%";
        if startTime == 0 {
          startTime := now;
        }
      } else if info.status == SUCCESS {
        progress := COMPLETE;
        if finishTime == 0 {
          finishTime := now;
        }
        if IsData(info.url) {
          resultUrl := proxy;
        } else if info.url != "" {
          resultUrl := info.url;
        } else {
          resultUrl := proxy;
        }
        shouldSettle := true;
      } else if info.status == FAILURE {
        progress := COMPLETE;
        if finishTime == 0 {
          finishTime := now;
        }
        failReason := info.reason;
        taskProgress := COMPLETE;
        shouldRefund := quota != 0;
      } else {
        return true, false, false;
      }
      if taskProgress != "" {
        progress := taskProgress;
      }
    }

    /** The save at the end of a poll; a lost race bills nothing. */
    method Save(row: Row, snap: Task, refund: bool, settle: bool, writeOk: bool)
        returns (shouldRefund: bool, shouldSettle: bool)
      modifies row
      ensures row.stored == if Value() == snap then old(row.stored)
                            else Saved(old(row.stored), snap.status, Value(), writeOk)
      ensures var guarded := Final(status) && snap.status != status;
        var billing := guarded ==> writeOk && old(row.stored.status) == snap.status;
        shouldRefund == (refund && billing) && shouldSettle == (settle && billing)
    {
      shouldRefund, shouldSettle := refund, settle;
      var isDone := status == SUCCESS || status == FAILURE;
      if isDone && snap.status != status {
        var won, err := UpdateWithStatus(row, snap.status, writeOk);
        if err || !won {
          shouldRefund, shouldSettle := false, false;
        }
      } else if snap != Value() {
        var _, _ := UpdateWithStatus(row, snap.status, writeOk);
      }
    }

    /** The difference to the settled price; only the copy learns the new quota. */
    method RecalculateTaskQuota(user: Account, actualQuota: int, fundOk: bool)
      modifies this`quota, user
      ensures quota == if actualQuota > 0 && fundOk then actualQuota else old(quota)
      ensures user.balance == old(user.balance) - (quota - old(quota))
    {
      if actualQuota <= 0 {
        return;
      }
      var quotaDelta := actualQuota - quota;
      if quotaDelta == 0 {
        return;
      }
      if !fundOk {
        return;
      }
      user.balance := user.balance - quotaDelta;
      quota := actualQuota;
    }

    method RefundTaskQuota(user: Account, fundOk: bool)
      modifies user
      ensures user.balance == old(user.balance) + if fundOk then quota else 0
    {
      if quota != 0 && fundOk {
        user.balance := user.balance + quota;
      }
    }
  }

  /** The second half of a poll: the status switch, the save and the money. */
  method SwitchAndBill(task: VideoTask, row: Row, user: Account, snap: Task, taskResult: Info, p: Poll)
    requires p.reply.Reply? && Answered(p.reply) == Some(taskResult)
    requires task.Value() == snap.(data := p.reply.data)
    modifies task, row, user
    ensures row.stored == PolledRow(old(row.stored), snap, p)
    ensures user.balance == old(user.balance) + Paid(old(row.stored), snap, p)
    ensures task.Value() == Touched(old(row.stored), snap, p)
  {
    var err, shouldRefund, shouldSettle := task.TakeOver(taskResult, p.proxy, p.now);
    if err {
      return;
    }
    assert task.Value() == Worked(snap, p);
    ghost var before := row.stored;
    shouldRefund, shouldSettle := task.Save(row, snap, shouldRefund, shouldSettle, p.writeOk);
    assert shouldRefund <==> Bills(before, snap, p) && Reports(p, FAILURE) && snap.quota != 0;
    assert shouldSettle <==> Bills(before, snap, p) && Reports(p, SUCCESS);
    if shouldSettle {
      task.RecalculateTaskQuota(user, p.actual, p.fundOk);
    }
    if shouldRefund {
      task.RefundTaskQuota(user, p.fundOk);
    }
  }

  /** updateVideoSingleTask, for a copy fetched some time before. */
  method UpdateVideoSingleTask(task: VideoTask, row: Row, user: Account, p: Poll)
    modifies task, row, user
    ensures row.stored == PolledRow(old(row.stored), old(task.Value()), p)
    ensures user.balance == old(user.balance) + Paid(old(row.stored), old(task.Value()), p)
    ensures task.Value() == Touched(old(row.stored), old(task.Value()), p)
  {
    if p.reply.NoReply? {
      return;
    }
    var snap := task.Value();
    var taskResult := p.reply.info;
    task.data := p.reply.data;
    if taskResult.status == "" {
      match p.reply.body {
      case NoJson =>
      case RateLimit => return;
      case ErrorReply => taskResult := Info(FAILURE, "", "", "upstream returned error");
      case Unrecognized => taskResult := Info(FAILURE, "", "", "upstream returned unrecognized message");
      }
    }
    SwitchAndBill(task, row, user, snap, taskResult, p);
  }

  /** The body of sweepTimedOutTasks for one task. */
  method TimeOutTask(task: VideoTask, row: Row, user: Account, t: Timeout)
    modifies task, row, user
    ensures task.Value() == TimedOut(old(task.Value()), t)
    ensures row.stored == Saved(old(row.stored), old(task.status), TimedOut(old(task.Value()), t), t.writeOk)
    ensures user.balance == old(user.balance) + TimeoutPaid(old(row.stored), old(task.Value()), t)
  {
    var isLegacy := task.submitTime > 0 && task.submitTime < LEGACY_CUTOFF;
    var oldStatus := task.status;
    task.status := FAILURE;
    task.progress := COMPLETE;
    task.finishTime := t.now;
    task.failReason := if isLegacy then t.legacyReason else t.reason;
    var won, err := task.UpdateWithStatus(row, oldStatus, t.writeOk);
    if err || !won {
      return;
    }
    if !isLegacy && task.quota != 0 {
      task.RefundTaskQuota(user, t.fundOk);
    }
  }

  /** What tryRealtimeFetch does to the task a user asks for. */
  method RefreshTask(task: VideoTask, row: Row, ti: Info, proxy: string, writeOk: bool)
    modifies task, row
    ensures task.Value() == Refreshed(old(task.Value()), ti, proxy)
    ensures row.stored == RefreshedRow(old(row.stored), old(task.Value()), ti, proxy, writeOk)
  {
    var snap := task.Value();
    if ti.status != "" {
      task.status := ti.status;
    }
    if ti.progress != "" {
      task.progress := ti.progress;
    }
    if IsData(ti.url) {
    } else if ti.url != "" {
      task.resultUrl := ti.url;
    } else if task.status == SUCCESS {
      task.resultUrl := proxy;
    }
    if snap != task.Value() {
      var _, _ := task.UpdateWithStatus(row, snap.status, writeOk);
    }
  }

  // ---------- one task, many pollers and users ----------

  /** A final status that was won and billed: the status, the price reported with it (none
      if not positive), and what the user got. */
  datatype Ending = Ending(status: string, price: int, paid: int)

  datatype State = State(row: Task, balance: int, copies: seq<Task>, views: seq<Task>, endings: seq<Ending>)

  /** The statuses a user's query may meet upstream. */
  type Policy = string -> bool

  datatype Step =
    | Fetch
    | Work(i: nat, p: Poll)
    | Expire(i: nat, t: Timeout)
    | BulkFail(i: nat, reason: string)
    | Ask
    | Refresh(i: nat, info: Info, proxy: string, writeOk: bool)

  /** Only unfinished tasks are fetched, but a user may ask for any; each copy is used once. */
  predicate Enabled(allowed: Policy, s: State, step: Step) {
    match step
    case Fetch => Unfinished(s.row.status, s.row.progress)
    case Work(i, _) => i < |s.copies|
    case Expire(i, _) => i < |s.copies|
    case BulkFail(i, _) => i < |s.copies|
    case Ask => true
    case Refresh(i, info, _, _) => i < |s.views| && allowed(info.status)
  }

  function Remove(copies: seq<Task>, i: nat): (rest: seq<Task>)
    requires i < |copies|
    ensures forall t :: t in rest ==> t in copies
  {
    copies[..i] + copies[i + 1..]
  }

  function WorkOn(s: State, i: nat, p: Poll): State
    requires i < |s.copies|
  {
    var copy := s.copies[i];
    var paid := Paid(s.row, copy, p);
    State(PolledRow(s.row, copy, p), s.balance + paid, Remove(s.copies, i), s.views,
          if Bills(s.row, copy, p) then s.endings + [Ending(Worked(copy, p).status, p.actual, paid)] else s.endings)
  }

  function ExpireOn(s: State, i: nat, t: Timeout): State
    requires i < |s.copies|
  {
    var copy := s.copies[i];
    var paid := TimeoutPaid(s.row, copy, t);
    State(Saved(s.row, copy.status, TimedOut(copy, t), t.writeOk), s.balance + paid, Remove(s.copies, i), s.views,
          if t.writeOk && s.row.status == copy.status then s.endings + [Ending(FAILURE, 0, paid)] else s.endings)
  }

  function Apply(s: State, step: Step, allowed: Policy): State
    requires Enabled(allowed, s, step)
  {
    match step
    case Fetch => s.(copies := s.copies + [s.row])
    case Work(i, p) => WorkOn(s, i, p)
    case Expire(i, t) => ExpireOn(s, i, t)
    case BulkFail(i, reason) =>
      s.(row := s.row.(status := FAILURE, progress := COMPLETE, failReason := reason), copies := Remove(s.copies, i))
    case Ask => s.(views := s.views + [s.row])
    case Refresh(i, info, proxy, ok) =>
      s.(row := RefreshedRow(s.row, s.views[i], info, proxy, ok), views := Remove(s.views, i))
  }

  predicate Runs(allowed: Policy, start: State, steps: seq<Step>)
    decreases |steps|, 0
  {
    steps == []
    || (Runs(allowed, start, Most(steps)) && Enabled(allowed, After(allowed, start, Most(steps)), Last(steps)))
  }

  function After(allowed: Policy, start: State, steps: seq<Step>): State
    requires Runs(allowed, start, steps)
    decreases |steps|, 1
  {
    if steps == [] then start else Apply(After(allowed, start, Most(steps)), Last(steps), allowed)
  }

  function Start(initial: Task, balance: int): State {
    State(initial, balance, [], [], [])
  }

  // ---------- the books ----------

  function TotalPaid(endings: seq<Ending>): int {
    if endings == [] then 0 else TotalPaid(Most(endings)) + Last(endings).paid
  }

  /** Copies waiting for a poll are not final; quota and submission never change. */
  ghost predicate Inv(initial: Task, s: State) {
    && SameTask(initial, s.row)
    && (forall t :: t in s.copies ==> SameTask(initial, t) && !Final(t.status))
    && (forall t :: t in s.views ==> SameTask(initial, t))
  }

  predicate SameTask(initial: Task, t: Task) {
    t.quota == initial.quota && t.submitTime == initial.submitTime
  }

  lemma InvKept(allowed: Policy, initial: Task, s: State, step: Step)
    requires Inv(initial, s) && Enabled(allowed, s, step)
    ensures Inv(initial, Apply(s, step, allowed))
  {
    match step {
    case Work(i, p) => assert s.copies[i] in s.copies;
    case Expire(i, t) => assert s.copies[i] in s.copies;
    case Refresh(i, info, proxy, ok) => assert s.views[i] in s.views;
    case _ =>
    }
  }

  lemma PaidKept(allowed: Policy, s: State, step: Step)
    requires Enabled(allowed, s, step)
    ensures Apply(s, step, allowed).balance - TotalPaid(Apply(s, step, allowed).endings)
         == s.balance - TotalPaid(s.endings)
  {
  }

  /** In every run, whatever fails and whoever asks: the balance is the recorded endings'
      money, and the stored quota is the pre-charge, never the settled price. */
  lemma {:induction false} Books(allowed: Policy, initial: Task, balance: int, steps: seq<Step>)
    requires Unfinished(initial.status, initial.progress) && Runs(allowed, Start(initial, balance), steps)
    ensures var end := After(allowed, Start(initial, balance), steps);
      Inv(initial, end) && end.balance == balance + TotalPaid(end.endings)
  {
    if steps != [] {
      Books(allowed, initial, balance, Most(steps));
      InvKept(allowed, initial, After(allowed, Start(initial, balance), Most(steps)), Last(steps));
      PaidKept(allowed, After(allowed, Start(initial, balance), Most(steps)), Last(steps));
    }
  }

  // ---------- billed once ----------

  /** No query meets a status that would make a final task open again. */
  ghost predicate Settling(allowed: Policy) {
    forall status :: allowed(status) ==> status == "" || Final(status)
  }

  lemma FinalStays(allowed: Policy, initial: Task, s: State, step: Step)
    requires Settling(allowed) && Inv(initial, s) && Final(s.row.status) && Enabled(allowed, s, step)
    ensures var s' := Apply(s, step, allowed); Final(s'.row.status) && s'.endings == s.endings
  {
    match step {
    case Work(i, p) => assert s.copies[i] in s.copies;
    case Expire(i, t) => assert s.copies[i] in s.copies;
    case Refresh(i, info, proxy, ok) => assert allowed(info.status);
    case _ =>
    }
  }

  /** One step from a task that is not final bills at most once, and then it is final. */
  lemma OpenStep(allowed: Policy, initial: Task, s: State, step: Step)
    requires Inv(initial, s) && !Final(s.row.status) && Enabled(allowed, s, step)
    ensures var s' := Apply(s, step, allowed);
      s'.endings == s.endings || (Final(s'.row.status) && s'.endings != [] && Most(s'.endings) == s.endings)
  {
    match step {
    case Work(i, p) => assert s.copies[i] in s.copies;
    case _ =>
    }
  }

  lemma {:induction false} BilledOnce(allowed: Policy, initial: Task, balance: int, steps: seq<Step>)
    requires Unfinished(initial.status, initial.progress) && Runs(allowed, Start(initial, balance), steps)
    requires Settling(allowed)
    ensures var end := After(allowed, Start(initial, balance), steps);
      |end.endings| <= 1 && (end.endings != [] ==> Final(end.row.status))
  {
    if steps != [] {
      var before := After(allowed, Start(initial, balance), Most(steps));
      BilledOnce(allowed, initial, balance, Most(steps));
      Books(allowed, initial, balance, Most(steps));
      if Final(before.row.status) {
        FinalStays(allowed, initial, before, Last(steps));
      } else {
        OpenStep(allowed, initial, before, Last(steps));
      }
    }
  }

  /** A reported failure, every call working. */
  const FAIL := Poll(Reply(Info(FAILURE, "", "", ""), NoJson, ""), 0, "", 0, true, true)

  lemma Extend(allowed: Policy, start: State, steps: seq<Step>, step: Step)
    requires Runs(allowed, start, steps) && Enabled(allowed, After(allowed, start, steps), step)
    ensures Runs(allowed, start, steps + [step])
    ensures After(allowed, start, steps + [step]) == Apply(After(allowed, start, steps), step, allowed)
  {
    assert Most(steps + [step]) == steps;
  }

  /** An unfinished task without other copies is fetched, fails and is refunded. */
  lemma FailsOnce(allowed: Policy, start: State, before: seq<Step>) returns (steps: seq<Step>)
    requires Runs(allowed, start, before)
    requires var s := After(allowed, start, before); Unfinished(s.row.status, s.row.progress) && s.copies == []
    ensures Runs(allowed, start, steps)
    ensures var s, end := After(allowed, start, before), After(allowed, start, steps);
      && end.row.status == FAILURE && end.row.quota == s.row.quota
      && end.balance == s.balance + s.row.quota && |end.endings| == |s.endings| + 1
      && end.copies == [] && end.views == s.views
  {
    Extend(allowed, start, before, Fetch);
    Extend(allowed, start, before + [Fetch], Work(0, FAIL));
    steps := before + [Fetch] + [Work(0, FAIL)];
  }

  /** A query that meets an open status makes a final task unfinished. */
  lemma Reopens(allowed: Policy, start: State, before: seq<Step>, status: string) returns (steps: seq<Step>)
    requires Runs(allowed, start, before) && allowed(status) && status != "" && !Final(status)
    requires var s := After(allowed, start, before); Final(s.row.status) && s.views == []
    ensures Runs(allowed, start, steps)
    ensures var s, end := After(allowed, start, before), After(allowed, start, steps);
      && Unfinished(end.row.status, end.row.progress) && end.row.quota == s.row.quota
      && end.balance == s.balance && end.endings == s.endings && end.copies == s.copies
  {
    var again := Refresh(0, Info(status, "50%", "", ""), "", true);
    Extend(allowed, start, before, Ask);
    Extend(allowed, start, before + [Ask], again);
    steps := before + [Ask] + [again];
  }

  /** A failure is refunded, a query finds the task under way again, and the poll refunds
      it a second time. */
  lemma RefundedTwice(allowed: Policy, initial: Task, balance: int, status: string) returns (steps: seq<Step>)
    requires Unfinished(initial.status, initial.progress)
    requires allowed(status) && status != "" && !Final(status)
    ensures Runs(allowed, Start(initial, balance), steps)
    ensures var end := After(allowed, Start(initial, balance), steps);
      |end.endings| == 2 && end.balance == balance + 2 * initial.quota
  {
    steps := FailsOnce(allowed, Start(initial, balance), []);
    steps := Reopens(allowed, Start(initial, balance), steps, status);
    steps := FailsOnce(allowed, Start(initial, balance), steps);
  }

  /** A task is billed at most once in every run exactly when no query meets an open status. */
  lemma BilledOnceIff(allowed: Policy, initial: Task, balance: int)
    requires Unfinished(initial.status, initial.progress)
    ensures (forall steps :: Runs(allowed, Start(initial, balance), steps) ==>
               |After(allowed, Start(initial, balance), steps).endings| <= 1)
       <==> Settling(allowed)
  {
    if Settling(allowed) {
      forall steps | Runs(allowed, Start(initial, balance), steps)
        ensures |After(allowed, Start(initial, balance), steps).endings| <= 1
      {
        BilledOnce(allowed, initial, balance, steps);
      }
    } else {
      var status :| allowed(status) && status != "" && !Final(status);
      var steps := RefundedTwice(allowed, initial, balance, status);
    }
  }

  // ---------- every failure refunded ----------

  /** No funding call fails and no missing channel fails the task. */
  predicate Funded(step: Step) {
    match step
    case Work(_, p) => p.fundOk
    case Expire(_, t) => t.fundOk
    case BulkFail(_, _) => false
    case _ => true
  }

  ghost predicate AllFunded(steps: seq<Step>) {
    forall i :: 0 <= i < |steps| ==> Funded(steps[i])
  }

  /** The latest billing was the full refund of a failure. */
  predicate Refunded(initial: Task, s: State) {
    s.endings != [] && Last(s.endings).status == FAILURE && Last(s.endings).paid == initial.quota
  }

  lemma RefundedKept(allowed: Policy, initial: Task, s: State, step: Step)
    requires !allowed(FAILURE) && !Legacy(initial)
    requires Inv(initial, s) && Enabled(allowed, s, step) && Funded(step)
    requires s.row.status == FAILURE ==> Refunded(initial, s)
    ensures Apply(s, step, allowed).row.status == FAILURE ==> Refunded(initial, Apply(s, step, allowed))
  {
    match step {
    case Work(i, p) => assert s.copies[i] in s.copies;
    case Expire(i, t) => assert s.copies[i] in s.copies;
    case Refresh(i, info, proxy, ok) => assert s.views[i] in s.views;
    case _ =>
    }
  }

  lemma {:induction false} FailureRefunded(allowed: Policy, initial: Task, balance: int, steps: seq<Step>)
    requires Unfinished(initial.status, initial.progress) && !Legacy(initial) && !allowed(FAILURE)
    requires Runs(allowed, Start(initial, balance), steps) && AllFunded(steps)
    ensures var end := After(allowed, Start(initial, balance), steps);
      end.row.status == FAILURE ==> Refunded(initial, end)
  {
    if steps != [] {
      FailureRefunded(allowed, initial, balance, Most(steps));
      Books(allowed, initial, balance, Most(steps));
      assert Funded(steps[|steps| - 1]);
      RefundedKept(allowed, initial, After(allowed, Start(initial, balance), Most(steps)), Last(steps));
    }
  }

  /** A query that meets the failure first stores it, and nobody refunds it. */
  lemma FailureSeenByQuery(allowed: Policy, initial: Task, balance: int) returns (steps: seq<Step>)
    requires Unfinished(initial.status, initial.progress) && allowed(FAILURE)
    ensures Runs(allowed, Start(initial, balance), steps) && AllFunded(steps)
    ensures var end := After(allowed, Start(initial, balance), steps); end.row.status == FAILURE && end.endings == []
  {
    var a: seq<Step> := [Ask];
    var seen := Refresh(0, Info(FAILURE, "", "", ""), "", true);
    steps := a + [seen];
    assert Most(a) == [] && Most(steps) == a;
    Extend(allowed, Start(initial, balance), [], Ask);
    Extend(allowed, Start(initial, balance), a, seen);
  }

  /** With funding calls that work, every failed task has been refunded in every run exactly
      when no query meets a failure. */
  lemma FailureRefundedIff(allowed: Policy, initial: Task, balance: int)
    requires Unfinished(initial.status, initial.progress) && !Legacy(initial)
    ensures (forall steps :: Runs(allowed, Start(initial, balance), steps) && AllFunded(steps) ==>
               var end := After(allowed, Start(initial, balance), steps);
               end.row.status == FAILURE ==> Refunded(initial, end))
       <==> !allowed(FAILURE)
  {
    if !allowed(FAILURE) {
      forall steps | Runs(allowed, Start(initial, balance), steps) && AllFunded(steps)
        ensures var end := After(allowed, Start(initial, balance), steps);
          end.row.status == FAILURE ==> Refunded(initial, end)
      {
        FailureRefunded(allowed, initial, balance, steps);
      }
    } else {
      var steps := FailureSeenByQuery(allowed, initial, balance);
    }
  }

  /** Once final, whoever made it so, a task is never billed again. */
  lemma {:induction false} FinalForever(allowed: Policy, initial: Task, s: State, steps: seq<Step>)
    requires Settling(allowed) && Inv(initial, s) && Final(s.row.status) && Runs(allowed, s, steps)
    ensures var end := After(allowed, s, steps);
      Inv(initial, end) && Final(end.row.status) && end.endings == s.endings && end.balance == s.balance
  {
    if steps != [] {
      var before := After(allowed, s, Most(steps));
      FinalForever(allowed, initial, s, Most(steps));
      InvKept(allowed, initial, before, Last(steps));
      FinalStays(allowed, initial, before, Last(steps));
      PaidKept(allowed, before, Last(steps));
    }
  }

  // ---------- without queries: who pays what ----------

  /** No query meets any status. */
  ghost predicate Quiet(allowed: Policy) {
    forall status :: allowed(status) ==> status == ""
  }

  /** The steps that make a task failed without its refund. */
  predicate Lossy(s: State, step: Step) {
    match step
    case Work(i, p) => i < |s.copies| && Wins(s.row, s.copies[i], p) && Reports(p, FAILURE) && !p.fundOk
    case Expire(i, t) =>
      i < |s.copies| && t.writeOk && s.row.status == s.copies[i].status && (Legacy(s.copies[i]) || !t.fundOk)
    case BulkFail(_, _) => s.row.status != FAILURE
    case _ => false
  }

  predicate SomeLossy(allowed: Policy, start: State, steps: seq<Step>)
    requires Runs(allowed, start, steps)
  {
    steps != []
    && (SomeLossy(allowed, start, Most(steps)) || Lossy(After(allowed, start, Most(steps)), Last(steps)))
  }

  ghost predicate Accounted(initial: Task, balance: int, s: State, lost: bool) {
    && (!Final(s.row.status) ==> !lost && s.balance == balance)
    && (s.row.status == SUCCESS ==> !lost && s.balance != balance + initial.quota)
    && (s.row.status == FAILURE ==> (s.balance == balance + initial.quota <==> !lost))
  }

  lemma AccountedKept(allowed: Policy, initial: Task, balance: int, s: State, step: Step, lost: bool)
    requires Quiet(allowed) && initial.quota != 0
    requires Inv(initial, s) && Enabled(allowed, s, step) && Accounted(initial, balance, s, lost)
    ensures Accounted(initial, balance, Apply(s, step, allowed), lost || Lossy(s, step))
  {
    match step {
    case Work(i, p) => assert s.copies[i] in s.copies;
    case Expire(i, t) => assert s.copies[i] in s.copies;
    case Refresh(i, info, proxy, ok) => assert allowed(info.status);
    case _ =>
    }
  }

  lemma {:induction false} AlwaysAccounted(allowed: Policy, initial: Task, balance: int, steps: seq<Step>)
    requires Unfinished(initial.status, initial.progress) && initial.quota != 0
    requires Quiet(allowed) && Runs(allowed, Start(initial, balance), steps)
    ensures var end := After(allowed, Start(initial, balance), steps);
      Accounted(initial, balance, end, SomeLossy(allowed, Start(initial, balance), steps))
  {
    if steps != [] {
      var before := After(allowed, Start(initial, balance), Most(steps));
      AlwaysAccounted(allowed, initial, balance, Most(steps));
      Books(allowed, initial, balance, Most(steps));
      AccountedKept(allowed, initial, balance, before, Last(steps),
                    SomeLossy(allowed, Start(initial, balance), Most(steps)));
    }
  }

  /** A failed task's charge is back exactly when no step of the run was lossy. */
  lemma RefundLostIff(allowed: Policy, initial: Task, balance: int, steps: seq<Step>)
    requires Unfinished(initial.status, initial.progress) && initial.quota != 0
    requires Quiet(allowed) && Runs(allowed, Start(initial, balance), steps)
    ensures var end := After(allowed, Start(initial, balance), steps);
      end.row.status == FAILURE ==>
        (end.balance == balance + initial.quota <==> !SomeLossy(allowed, Start(initial, balance), steps))
  {
    AlwaysAccounted(allowed, initial, balance, steps);
  }

  /** What the user should pay in all: nothing for a failure, else the reported price or,
      without one, the pre-charge. */
  function Due(quota: int, endings: seq<Ending>): int {
    if endings == [] then quota
    else if endings[0].status == FAILURE then 0
    else if endings[0].price > 0 then endings[0].price
    else quota
  }

  ghost predicate Settled(initial: Task, s: State) {
    && |s.endings| <= 1
    && (s.endings == [] <==> !Final(s.row.status))
    && (s.endings != [] ==> s.endings[0].status == s.row.status)
    && TotalPaid(s.endings) == initial.quota - Due(initial.quota, s.endings)
  }

  lemma FinalStatusStays(allowed: Policy, initial: Task, s: State, step: Step)
    requires Quiet(allowed) && Funded(step)
    requires Inv(initial, s) && Enabled(allowed, s, step) && Final(s.row.status)
    ensures var s' := Apply(s, step, allowed); s'.row.status == s.row.status && s'.endings == s.endings
  {
    FinalStays(allowed, initial, s, step);
    match step {
    case Work(i, p) => assert s.copies[i] in s.copies;
    case Expire(i, t) => assert s.copies[i] in s.copies;
    case Refresh(i, info, proxy, ok) => assert allowed(info.status);
    case _ =>
    }
  }

  /** A step that ends the task settles it; another leaves it open. */
  lemma OpenSettles(allowed: Policy, initial: Task, s: State, step: Step)
    requires Quiet(allowed) && !Legacy(initial) && Funded(step)
    requires Inv(initial, s) && Enabled(allowed, s, step) && !Final(s.row.status) && s.endings == []
    ensures var s' := Apply(s, step, allowed);
      if Final(s'.row.status) then
        exists e :: s'.endings == [e] && e.status == s'.row.status
          && e.paid == initial.quota - Due(initial.quota, [e])
      else s'.endings == []
  {
    match step {
    case Work(i, p) => PollSettles(initial, s, i, p);
    case Expire(i, t) =>
      assert s.copies[i] in s.copies;
      assert ExpireOn(s, i, t).endings == [] || ExpireOn(s, i, t).endings == [Ending(FAILURE, 0, initial.quota)];
    case Refresh(i, info, proxy, ok) => assert allowed(info.status);
    case _ =>
    }
  }

  lemma PollSettles(initial: Task, s: State, i: nat, p: Poll)
    requires i < |s.copies| && p.fundOk
    requires Inv(initial, s) && !Final(s.row.status) && s.endings == []
    ensures var s' := WorkOn(s, i, p);
      if Final(s'.row.status) then
        var e := Ending(s'.row.status, p.actual, Paid(s.row, s.copies[i], p));
        s'.endings == [e] && e.paid == initial.quota - Due(initial.quota, [e])
      else s'.endings == []
  {
    assert s.copies[i] in s.copies;
  }

  lemma SettledKept(allowed: Policy, initial: Task, s: State, step: Step)
    requires Quiet(allowed) && !Legacy(initial) && Funded(step)
    requires Inv(initial, s) && Enabled(allowed, s, step) && Settled(initial, s)
    ensures Settled(initial, Apply(s, step, allowed))
  {
    if Final(s.row.status) {
      FinalStatusStays(allowed, initial, s, step);
    } else {
      OpenSettles(allowed, initial, s, step);
    }
  }

  /** With funding calls that work, any pollers and sweeps together charge a task what is
      due: the pre-charge while it is open, nothing once failed, the price once succeeded. */
  lemma {:induction false} NetPayment(allowed: Policy, initial: Task, balance: int, steps: seq<Step>)
    requires Unfinished(initial.status, initial.progress) && !Legacy(initial) && Quiet(allowed)
    requires Runs(allowed, Start(initial, balance), steps) && AllFunded(steps)
    ensures var end := After(allowed, Start(initial, balance), steps);
      Settled(initial, end) && initial.quota + (balance - end.balance) == Due(initial.quota, end.endings)
  {
    Books(allowed, initial, balance, steps);
    if steps != [] {
      NetPayment(allowed, initial, balance, Most(steps));
      Books(allowed, initial, balance, Most(steps));
      assert Funded(steps[|steps| - 1]);
      SettledKept(allowed, initial, After(allowed, Start(initial, balance), Most(steps)), Last(steps));
    }
  }

  // ---------- one copy polled twice ----------

  /** Two tasks with one upstream id are listed twice but share a copy: a failure is then
      refunded twice, the second time without any guard; a success is settled once. */
  lemma SharedCopy(row: Task, copy: Task, p: Poll, q: Poll)
    requires Wins(row, copy, p) && p.fundOk && q.fundOk && p.actual == q.actual
    requires ReportsKnown(q) && Answered(q.reply).value.status == Answered(p.reply).value.status
    ensures var again := Paid(PolledRow(row, copy, p), Touched(row, copy, p), q);
      again == if Reports(p, FAILURE) then copy.quota else 0
  {
  }
}
