/**
  The relayer's worker pool: any number of workers share one bounded queue of tasks and one
  dry-run switch. The pool is a step machine: between two steps of one worker, all other
  workers and the endpoint may take any number of steps.
 */
module Taskmaster {
  const TASK_QUEUE_SIZE: nat := 1024
  const OPTIMISTIC_DRY_RUN_THRESHOLD: nat := 32
  const U32: nat := 0x1_0000_0000

  // -------- the dry-run switch --------

  // The shared counter. Every method is one atomic operation on it.
  class OptionalDryRun {
    var successCounter: nat

    ghost predicate Valid()
      reads this
    {
      successCounter < U32
    }

    constructor ()
      ensures Valid() && successCounter == NoticesSince([])
    {
      successCounter := OPTIMISTIC_DRY_RUN_THRESHOLD;
    }

    method NoticeRelaySuccess(ghost log: seq<Event>, ghost t: Task)
      requires Valid() && successCounter == NoticesSince(log) % U32
      modifies this
      ensures Valid() && successCounter == NoticesSince(log + [Noticed(t, true)]) % U32
    {
      successCounter := (successCounter + 1) % U32;
    }

    method NoticeRelayFailure(ghost log: seq<Event>, ghost t: Task)
      modifies this
      ensures Valid() && successCounter == NoticesSince(log + [Noticed(t, false)]) % U32
    {
      successCounter := 0;
    }

    method ShouldDryRunNow() returns (b: bool)
      ensures b == OrdersDryRun(successCounter)
    {
      b := successCounter < OPTIMISTIC_DRY_RUN_THRESHOLD;
    }
  }

  predicate OrdersDryRun(counter: nat) {
    counter < OPTIMISTIC_DRY_RUN_THRESHOLD
  }

  // -------- the pool --------

  type Task = nat  // every registration has its own report channel, hence its own identity

  datatype Mode = Obligatory | Optimistic

  datatype Result = DryRunFailed | RelayFailed | Ok

  datatype Worker =
    | Idle
    | Received(task: Task)
    | DryRunning(task: Task)
    | DryRunRejected(task: Task)
    | Ready(task: Task)
    | Submitted(task: Task, ok: bool)
    | Reported(task: Task, ok: bool)
    | Recharging

  // What happened, in order.
  datatype Event =
    | Registered(task: Task)
    | SwitchRead(task: Task, dryRun: bool)
    | DryRun(task: Task, ok: bool)
    | Submit(task: Task, ok: bool)
    | Report(task: Task, result: Result)
    | Noticed(task: Task, ok: bool)

  datatype Pool = Pool(mode: Mode, queue: seq<Task>, workers: seq<Worker>, counter: nat, log: seq<Event>)

  datatype Step =
    | Register(task: Task)
    | Receive(w: nat)
    | ReadSwitch(w: nat)
    | DryRunDone(w: nat, ok: bool)
    | SubmitDone(w: nat, ok: bool)
    | SendReport(w: nat)
    | Notice(w: nat)
    | Recharge(w: nat)

  function Init(mode: Mode, n: nat): Pool {
    Pool(mode, [], seq(n, _ => Idle), OPTIMISTIC_DRY_RUN_THRESHOLD, [])
  }

  predicate Enabled(p: Pool, step: Step) {
    match step
    case Register(t) => |p.queue| < TASK_QUEUE_SIZE && Event.Registered(t) !in p.log
    case Receive(w) => w < |p.workers| && p.workers[w].Idle? && p.queue != []
    case ReadSwitch(w) => w < |p.workers| && p.workers[w].Received?
    case DryRunDone(w, _) => w < |p.workers| && p.workers[w].DryRunning?
    case SubmitDone(w, _) => w < |p.workers| && p.workers[w].Ready?
    case SendReport(w) => w < |p.workers| && (p.workers[w].DryRunRejected? || p.workers[w].Submitted?)
    case Notice(w) => w < |p.workers| && p.workers[w].Reported?
    case Recharge(w) => w < |p.workers| && p.workers[w].Recharging?
  }

  function Move(p: Pool, w: nat, worker: Worker, events: seq<Event>): Pool
    requires w < |p.workers|
  {
    p.(workers := p.workers[w := worker], log := p.log + events)
  }

  function Apply(p: Pool, step: Step): Pool
    requires Enabled(p, step)
  {
    match step
    case Register(t) => p.(queue := p.queue + [t], log := p.log + [Event.Registered(t)])
    case Receive(w) => Move(p.(queue := p.queue[1..]), w, Received(p.queue[0]), [])
    case ReadSwitch(w) =>
      var t := p.workers[w].task;
      var dryRun := p.mode.Obligatory? || OrdersDryRun(p.counter);
      Move(p, w, if dryRun then DryRunning(t) else Ready(t), [SwitchRead(t, dryRun)])
    case DryRunDone(w, ok) =>
      var t := p.workers[w].task;
      Move(p, w, if ok then Ready(t) else DryRunRejected(t), [DryRun(t, ok)])
    case SubmitDone(w, ok) =>
      var t := p.workers[w].task;
      Move(p, w, Submitted(t, ok), [Submit(t, ok)])
    case SendReport(w) =>
      (match p.workers[w]
       case DryRunRejected(t) => Move(p, w, Idle, [Report(t, DryRunFailed)])
       case Submitted(t, ok) => Move(p, w, Worker.Reported(t, ok), [Report(t, if ok then Ok else RelayFailed)])
       case _ => p)
    case Notice(w) =>
      var t, ok := p.workers[w].task, p.workers[w].ok;
      var q := Move(p, w, Recharging, [Noticed(t, ok)]);
      if p.mode.Obligatory? then q else q.(counter := if ok then (p.counter + 1) % U32 else 0)
    case Recharge(w) => Move(p, w, Idle, [])
  }

  // A run: every step is enabled when it is taken.
  ghost predicate Runs(p: Pool, steps: seq<Step>)
    decreases |steps|
  {
    steps == [] || (Enabled(p, steps[0]) && Runs(Apply(p, steps[0]), steps[1..]))
  }

  ghost function After(p: Pool, steps: seq<Step>): Pool
    requires Runs(p, steps)
    decreases |steps|
  {
    if steps == [] then p else After(Apply(p, steps[0]), steps[1..])
  }

  // -------- accounting --------

  function Ind(b: bool): nat {
    if b then 1 else 0
  }

  // How far a worker is with a task: it has it in its hands from receiving it until reporting
  // on it; it has not read the switch for it; it has submitted and not yet reported it; it has
  // reported and not yet noticed its relay.
  datatype Stage = Holding | Unread | Unreported | Unnoticed

  predicate InStage(stage: Stage, w: Worker, t: Task) {
    match stage
    case Holding => !w.Idle? && !w.Reported? && !w.Recharging? && w.task == t
    case Unread => w == Received(t)
    case Unreported => w.Submitted? && w.task == t
    case Unnoticed => w.Reported? && w.task == t
  }

  // How many workers are at that stage with the task.
  function Held(stage: Stage, ws: seq<Worker>, t: Task): nat {
    if ws == [] then 0 else Ind(InStage(stage, ws[0], t)) + Held(stage, ws[1..], t)
  }

  // The events of a task that are counted: its registrations, readings of the switch for it,
  // its submissions, the reports that it was rejected by a dry run, the reports that it was
  // relayed, well or not, and the notices of its relay.
  datatype Kind = Registration | Reading | Submission | Rejection | Relay | Notification

  predicate Is(k: Kind, e: Event, t: Task) {
    match k
    case Registration => e == Event.Registered(t)
    case Reading => e.SwitchRead? && e.task == t
    case Submission => e.Submit? && e.task == t
    case Rejection => e == Report(t, DryRunFailed)
    case Relay => e.Report? && e.task == t && !e.result.DryRunFailed?
    case Notification => e.Noticed? && e.task == t
  }

  function Count(k: Kind, log: seq<Event>, t: Task): nat {
    if log == [] then 0 else Count(k, log[..|log| - 1], t) + Ind(Is(k, log[|log| - 1], t))
  }

  // The successes noticed since the last noticed failure, 32 more if there was none.
  ghost function NoticesSince(log: seq<Event>): nat {
    if log == [] then 32 else
    var n := |log| - 1;
    if log[n].Noticed? then (if log[n].ok then NoticesSince(log[..n]) + 1 else 0)
    else NoticesSince(log[..n])
  }

  // The registered tasks, in order.
  function Registrations(log: seq<Event>): seq<Task> {
    if log == [] then [] else
    var n := |log| - 1;
    Registrations(log[..n]) + if log[n].Registered? then [log[n].task] else []
  }

  // -------- the invariant --------

  ghost predicate ConservedTask(p: Pool, t: Task) {
    && Count(Registration, p.log, t)
       == multiset(p.queue)[t] + Held(Holding, p.workers, t) + Count(Rejection, p.log, t) + Count(Relay, p.log, t)
    && Count(Registration, p.log, t) == multiset(p.queue)[t] + Held(Unread, p.workers, t) + Count(Reading, p.log, t)
    && Count(Submission, p.log, t) == Held(Unreported, p.workers, t) + Count(Relay, p.log, t)
    && Count(Relay, p.log, t) == Held(Unnoticed, p.workers, t) + Count(Notification, p.log, t)
    && Count(Registration, p.log, t) <= 1
  }

  // The switch was read for the task, and if it ordered a dry run, that dry run succeeded
  // afterwards.
  ghost predicate Obeyed(log: seq<Event>, t: Task) {
    exists i :: 0 <= i < |log| && log[i].SwitchRead? && log[i].task == t && (log[i].dryRun ==> DryRun(t, true) in log[i..])
  }

  // What the log must contain for a worker to be where it is.
  ghost predicate Justified(mode: Mode, w: Worker, log: seq<Event>) {
    match w
    case DryRunning(t) => SwitchRead(t, true) in log
    case DryRunRejected(t) => DryRun(t, false) in log
    case Ready(t) => Obeyed(log, t) && (mode.Obligatory? ==> DryRun(t, true) in log)
    case Submitted(t, ok) => Submit(t, ok) in log
    case Reported(t, ok) => Submit(t, ok) in log
    case _ => true
  }

  // What the log must contain before an event.
  ghost predicate EventJustified(mode: Mode, e: Event, before: seq<Event>) {
    match e
    case SwitchRead(_, dryRun) => dryRun <==> (mode.Obligatory? || OrdersDryRun(NoticesSince(before) % U32))
    case DryRun(t, _) => SwitchRead(t, true) in before
    case Submit(t, _) => Obeyed(before, t) && (mode.Obligatory? ==> DryRun(t, true) in before)
    case Report(t, DryRunFailed) => DryRun(t, false) in before
    case Report(t, RelayFailed) => Submit(t, false) in before
    case Report(t, Ok) => Submit(t, true) in before
    case Noticed(t, ok) => Submit(t, ok) in before
    case _ => true
  }

  // The queue is the end of the sequence of registered tasks.
  ghost predicate InOrder(p: Pool) {
    && |p.queue| <= |Registrations(p.log)|
    && p.queue == Registrations(p.log)[|Registrations(p.log)| - |p.queue|..]
  }

  ghost predicate Inv(p: Pool) {
    && (forall t :: ConservedTask(p, t))
    && WorkersJustified(p)
    && LogJustified(p)
    && (p.mode.Optimistic? ==> p.counter == NoticesSince(p.log) % U32)
    && |p.queue| <= TASK_QUEUE_SIZE
    && InOrder(p)
  }

  // -------- every step keeps the invariant --------

  lemma CountSnoc(k: Kind, log: seq<Event>, e: Event, t: Task)
    ensures Count(k, log + [e], t) == Count(k, log, t) + Ind(Is(k, e, t))
  {
    assert (log + [e])[..|log|] == log;
  }

  lemma NoticesSnoc(log: seq<Event>, e: Event)
    ensures NoticesSince(log + [e])
            == if e.Noticed? then (if e.ok then NoticesSince(log) + 1 else 0) else NoticesSince(log)
  {
    assert (log + [e])[..|log|] == log;
  }

  lemma RegistrationsSnoc(log: seq<Event>, e: Event)
    ensures Registrations(log + [e]) == Registrations(log) + if e.Registered? then [e.task] else []
  {
    assert (log + [e])[..|log|] == log;
  }

  lemma {:induction false} HeldUpdate(stage: Stage, ws: seq<Worker>, w: nat, worker: Worker, t: Task)
    requires w < |ws|
    ensures Held(stage, ws[w := worker], t) + Ind(InStage(stage, ws[w], t))
            == Held(stage, ws, t) + Ind(InStage(stage, worker, t))
  {
    hide InStage;
    if w == 0 {
      assert ws[w := worker][1..] == ws[1..];
    } else {
      assert ws[w := worker][1..] == ws[1..][w - 1 := worker];
      HeldUpdate(stage, ws[1..], w - 1, worker, t);
    }
  }

  lemma {:induction false} CountedMeansLogged(k: Kind, log: seq<Event>, t: Task)
    ensures Count(k, log, t) > 0 <==> exists i :: 0 <= i < |log| && Is(k, log[i], t)
  {
    hide Is;
    if log != [] {
      var n := |log| - 1;
      CountedMeansLogged(k, log[..n], t);
      if Count(k, log[..n], t) > 0 {
        var i :| 0 <= i < n && Is(k, log[..n][i], t);
        assert Is(k, log[i], t);
      }
      if i :| 0 <= i < |log| && Is(k, log[i], t) {
        if i < n {
          assert log[..n][i] == log[i];
        }
      }
    }
  }

  ghost predicate WorkersJustified(p: Pool) {
    forall w :: 0 <= w < |p.workers| ==> Justified(p.mode, p.workers[w], p.log)
  }

  ghost predicate LogJustified(p: Pool) {
    forall i :: 0 <= i < |p.log| ==> EventJustified(p.mode, p.log[i], p.log[..i])
  }

  lemma ObeyedGrows(log: seq<Event>, more: seq<Event>, t: Task)
    requires Obeyed(log, t)
    ensures Obeyed(log + more, t)
  {
    var i :| 0 <= i < |log| && log[i].SwitchRead? && log[i].task == t && (log[i].dryRun ==> DryRun(t, true) in log[i..]);
    assert (log + more)[i] == log[i] && (log + more)[i..] == log[i..] + more;
  }

  // More log keeps every justification.
  lemma JustifiedGrows(mode: Mode, w: Worker, log: seq<Event>, more: seq<Event>)
    requires Justified(mode, w, log)
    ensures Justified(mode, w, log + more)
  {
    hide Obeyed;
    if w.Ready? {
      ObeyedGrows(log, more, w.task);
    }
  }

  lemma MoveJustified(p: Pool, w: nat, worker: Worker, events: seq<Event>)
    requires WorkersJustified(p) && w < |p.workers| && Justified(p.mode, worker, p.log + events)
    ensures WorkersJustified(Move(p, w, worker, events))
  {
    var q := Move(p, w, worker, events);
    hide Justified;
    forall v | 0 <= v < |q.workers|
      ensures Justified(q.mode, q.workers[v], q.log)
    {
      if v != w {
        assert Justified(p.mode, p.workers[v], p.log);
        JustifiedGrows(p.mode, p.workers[v], p.log, events);
      }
    }
  }

  lemma AppendJustified(p: Pool, q: Pool, e: Event)
    requires LogJustified(p) && q.mode == p.mode && q.log == p.log + [e] && EventJustified(p.mode, e, p.log)
    ensures LogJustified(q)
  {
    hide EventJustified;
    forall i | 0 <= i < |q.log|
      ensures EventJustified(q.mode, q.log[i], q.log[..i])
    {
      if i < |p.log| {
        assert q.log[..i] == p.log[..i] && EventJustified(p.mode, p.log[i], p.log[..i]);
      } else {
        assert q.log[..i] == p.log;
      }
    }
  }

  // What a move of a worker and the event it logs mean for one task: what leaves its hands is
  // reported, what it reads, submits and notices is logged.
  ghost predicate Balanced(w: Worker, worker: Worker, e: Event, t: Task) {
    && Ind(InStage(Holding, w, t)) == Ind(InStage(Holding, worker, t)) + Ind(Is(Rejection, e, t)) + Ind(Is(Relay, e, t))
    && Ind(InStage(Unread, w, t)) == Ind(InStage(Unread, worker, t)) + Ind(Is(Reading, e, t))
    && Ind(InStage(Unreported, w, t)) + Ind(Is(Submission, e, t)) == Ind(InStage(Unreported, worker, t)) + Ind(Is(Relay, e, t))
    && Ind(InStage(Unnoticed, w, t)) + Ind(Is(Relay, e, t)) == Ind(InStage(Unnoticed, worker, t)) + Ind(Is(Notification, e, t))
  }

  lemma CountsSnoc(log: seq<Event>, e: Event, t: Task)
    ensures forall k :: Count(k, log + [e], t) == Count(k, log, t) + Ind(Is(k, e, t))
  {
    forall k
      ensures Count(k, log + [e], t) == Count(k, log, t) + Ind(Is(k, e, t))
    {
      CountSnoc(k, log, e, t);
    }
  }

  lemma HeldUpdates(ws: seq<Worker>, w: nat, worker: Worker, t: Task)
    requires w < |ws|
    ensures forall stage :: Held(stage, ws[w := worker], t) + Ind(InStage(stage, ws[w], t))
                            == Held(stage, ws, t) + Ind(InStage(stage, worker, t))
  {
    hide InStage;
    forall stage
      ensures Held(stage, ws[w := worker], t) + Ind(InStage(stage, ws[w], t))
              == Held(stage, ws, t) + Ind(InStage(stage, worker, t))
    {
      HeldUpdate(stage, ws, w, worker, t);
    }
  }

  lemma MoveConserved(p: Pool, w: nat, worker: Worker, e: Event, t: Task)
    requires ConservedTask(p, t) && w < |p.workers| && !e.Registered? && Balanced(p.workers[w], worker, e, t)
    ensures ConservedTask(Move(p, w, worker, [e]), t)
  {
    CountsSnoc(p.log, e, t);
    HeldUpdates(p.workers, w, worker, t);
    assert !Is(Registration, e, t);
    hide InStage, Count, Held, Is;
  }

  lemma RegisterKeeps(p: Pool, t: Task)
    requires Inv(p) && Enabled(p, Register(t))
    ensures Inv(Apply(p, Register(t)))
  {
    hide Count, Held, NoticesSince, Registrations;
    var e := Event.Registered(t);
    var q := Apply(p, Register(t));
    forall u
      ensures ConservedTask(q, u)
    {
      RegisterConserved(p, t, u);
    }
    RegisterJustified(p, q, e);
    AppendJustified(p, q, e);
    NoticesSnoc(p.log, e);
    RegistrationsSnoc(p.log, e);
  }

  lemma RegisterConserved(p: Pool, t: Task, u: Task)
    requires ConservedTask(p, u) && Enabled(p, Register(t))
    ensures ConservedTask(Apply(p, Register(t)), u)
  {
    hide Count, Held, EventJustified;
    CountsSnoc(p.log, Event.Registered(t), u);
    CountedMeansLogged(Registration, p.log, u);
  }

  lemma RegisterJustified(p: Pool, q: Pool, e: Event)
    requires WorkersJustified(p) && q.workers == p.workers && q.mode == p.mode && q.log == p.log + [e]
    ensures WorkersJustified(q)
  {
    hide Justified;
    forall v | 0 <= v < |q.workers|
      ensures Justified(q.mode, q.workers[v], q.log)
    {
      assert Justified(p.mode, p.workers[v], p.log);
      JustifiedGrows(p.mode, p.workers[v], p.log, [e]);
    }
  }

  lemma ReceiveKeeps(p: Pool, w: nat)
    requires Inv(p) && Enabled(p, Receive(w))
    ensures Inv(Apply(p, Receive(w)))
  {
    hide Count, Held, NoticesSince, Registrations;
    var q := Apply(p, Receive(w));
    assert p.queue == [p.queue[0]] + p.queue[1..];
    assert p.log + [] == p.log;
    forall u
      ensures ConservedTask(q, u)
    {
      assert ConservedTask(p, u);
      HeldUpdates(p.workers, w, Received(p.queue[0]), u);
    }
    MoveJustified(p.(queue := p.queue[1..]), w, Received(p.queue[0]), []);
    assert LogJustified(q);
  }

  // All other steps of a worker: it moves and logs one event.
  lemma MoveKeeps(p: Pool, w: nat, worker: Worker, e: Event, q: Pool)
    requires Inv(p) && w < |p.workers| && q == Move(p, w, worker, [e]).(counter := q.counter) && !e.Registered?
    requires forall t :: Balanced(p.workers[w], worker, e, t)
    requires Justified(p.mode, worker, p.log + [e]) && EventJustified(p.mode, e, p.log)
    requires p.mode.Optimistic? ==> q.counter == NoticesSince(p.log + [e]) % U32
    ensures Inv(q)
  {
    hide Balanced, Justified, EventJustified, NoticesSince, Registrations;
    var m := Move(p, w, worker, [e]);
    forall t
      ensures ConservedTask(q, t)
    {
      assert ConservedTask(p, t);
      MoveConserved(p, w, worker, e, t);
      assert ConservedTask(m, t);
    }
    MoveJustified(p, w, worker, [e]);
    assert WorkersJustified(q);
    AppendJustified(p, q, e);
    RegistrationsSnoc(p.log, e);
  }

  lemma StepKeeps(p: Pool, step: Step)
    requires Inv(p) && Enabled(p, step)
    ensures Inv(Apply(p, step))
  {
    var q := Apply(p, step);
    match step
    case Register(t) => RegisterKeeps(p, t);
    case Receive(w) => ReceiveKeeps(p, w);
    case ReadSwitch(w) => ReadSwitchKeeps(p, w);
    case DryRunDone(w, ok) => DryRunKeeps(p, w, ok);
    case SubmitDone(w, ok) => SubmitKeeps(p, w, ok);
    case SendReport(w) => ReportKeeps(p, w);
    case Notice(w) => NoticeKeeps(p, w);
    case Recharge(w) => RechargeKeeps(p, w);
  }

  lemma ReadSwitchKeeps(p: Pool, w: nat)
    requires Inv(p) && Enabled(p, ReadSwitch(w))
    ensures Inv(Apply(p, ReadSwitch(w)))
  {
    hide ConservedTask, WorkersJustified, LogJustified, InOrder, NoticesSince;
    var t := p.workers[w].task;
    var dryRun := p.mode.Obligatory? || OrdersDryRun(p.counter);
    var e := SwitchRead(t, dryRun);
    NoticesSnoc(p.log, e);
    var log := p.log + [e];
    assert log[|p.log|] == e;
    if !dryRun {
      assert Obeyed(log, t);
    }
    MoveKeeps(p, w, if dryRun then DryRunning(t) else Ready(t), e, Apply(p, ReadSwitch(w)));
  }

  lemma DryRunKeeps(p: Pool, w: nat, ok: bool)
    requires Inv(p) && Enabled(p, DryRunDone(w, ok))
    ensures Inv(Apply(p, DryRunDone(w, ok)))
  {
    hide ConservedTask, LogJustified, InOrder, NoticesSince;
    var t := p.workers[w].task;
    var e := DryRun(t, ok);
    NoticesSnoc(p.log, e);
    assert Justified(p.mode, p.workers[w], p.log);
    var log := p.log + [e];
    assert log[|p.log|] == e;
    if ok {
      var i :| 0 <= i < |p.log| && p.log[i] == SwitchRead(t, true);
      assert log[i] == p.log[i] && log[i..] == p.log[i..] + [e];
      assert Obeyed(log, t);
    }
    hide WorkersJustified;
    MoveKeeps(p, w, if ok then Ready(t) else DryRunRejected(t), e, Apply(p, DryRunDone(w, ok)));
  }

  lemma SubmitKeeps(p: Pool, w: nat, ok: bool)
    requires Inv(p) && Enabled(p, SubmitDone(w, ok))
    ensures Inv(Apply(p, SubmitDone(w, ok)))
  {
    hide ConservedTask, LogJustified, InOrder, NoticesSince, Obeyed;
    var t := p.workers[w].task;
    NoticesSnoc(p.log, Submit(t, ok));
    assert (p.log + [Submit(t, ok)])[|p.log|] == Submit(t, ok);
    assert Justified(p.mode, p.workers[w], p.log);
    hide WorkersJustified;
    MoveKeeps(p, w, Submitted(t, ok), Submit(t, ok), Apply(p, SubmitDone(w, ok)));
  }

  lemma ReportKeeps(p: Pool, w: nat)
    requires Inv(p) && Enabled(p, SendReport(w))
    ensures Inv(Apply(p, SendReport(w)))
  {
    hide Inv;
    match p.workers[w] {
      case DryRunRejected(t) => RejectionKeeps(p, w, t);
      case Submitted(t, ok) => RelayReportKeeps(p, w, t, ok);
    }
  }

  lemma RejectionKeeps(p: Pool, w: nat, t: Task)
    requires Inv(p) && w < |p.workers| && p.workers[w] == DryRunRejected(t)
    ensures Inv(Move(p, w, Idle, [Report(t, DryRunFailed)]))
  {
    hide ConservedTask, LogJustified, InOrder, NoticesSince, Obeyed;
    assert Justified(p.mode, p.workers[w], p.log);
    NoticesSnoc(p.log, Report(t, DryRunFailed));
    hide WorkersJustified;
    MoveKeeps(p, w, Idle, Report(t, DryRunFailed), Move(p, w, Idle, [Report(t, DryRunFailed)]));
  }

  lemma RelayReportKeeps(p: Pool, w: nat, t: Task, ok: bool)
    requires Inv(p) && w < |p.workers| && p.workers[w] == Submitted(t, ok)
    ensures Inv(Move(p, w, Worker.Reported(t, ok), [Report(t, if ok then Ok else RelayFailed)]))
  {
    hide ConservedTask, LogJustified, InOrder, NoticesSince, Obeyed;
    var e := Report(t, if ok then Ok else RelayFailed);
    assert Justified(p.mode, p.workers[w], p.log);
    NoticesSnoc(p.log, e);
    hide WorkersJustified;
    MoveKeeps(p, w, Worker.Reported(t, ok), e, Move(p, w, Worker.Reported(t, ok), [e]));
  }

  lemma NoticeKeeps(p: Pool, w: nat)
    requires Inv(p) && Enabled(p, Notice(w))
    ensures Inv(Apply(p, Notice(w)))
  {
    hide ConservedTask, LogJustified, InOrder, NoticesSince, Obeyed;
    var t, ok := p.workers[w].task, p.workers[w].ok;
    NoticesSnoc(p.log, Noticed(t, ok));
    ModSucc(NoticesSince(p.log));
    assert Justified(p.mode, p.workers[w], p.log);
    hide WorkersJustified;
    MoveKeeps(p, w, Recharging, Noticed(t, ok), Apply(p, Notice(w)));
  }

  lemma ModSucc(n: nat)
    ensures (n % U32 + 1) % U32 == (n + 1) % U32
  {
  }

  lemma RechargeKeeps(p: Pool, w: nat)
    requires Inv(p) && Enabled(p, Recharge(w))
    ensures Inv(Apply(p, Recharge(w)))
  {
    hide Count, Held, NoticesSince, Registrations;
    var q := Apply(p, Recharge(w));
    assert p.log + [] == p.log;
    forall u
      ensures ConservedTask(q, u)
    {
      assert ConservedTask(p, u);
      HeldUpdates(p.workers, w, Idle, u);
    }
    MoveJustified(p, w, Idle, []);
    assert LogJustified(q);
  }

  // -------- theorems over all runs --------

  lemma InitInv(mode: Mode, n: nat)
    ensures Inv(Init(mode, n))
  {
    hide ConservedTask, Obeyed;
    forall t
      ensures ConservedTask(Init(mode, n), t)
    {
      InitConserved(mode, n, t);
    }
  }

  lemma InitConserved(mode: Mode, n: nat, t: Task)
    ensures ConservedTask(Init(mode, n), t)
  {
    IdleHoldsNothing(seq(n, _ => Idle), t);
    hide Held;
  }

  lemma {:induction false} IdleHoldsNothing(ws: seq<Worker>, t: Task)
    requires forall i :: 0 <= i < |ws| ==> ws[i] == Idle
    ensures forall stage :: Held(stage, ws, t) == 0
  {
    if ws != [] {
      IdleHoldsNothing(ws[1..], t);
    }
  }

  lemma {:induction false} RunKeeps(p: Pool, steps: seq<Step>)
    requires Inv(p) && Runs(p, steps)
    ensures Inv(After(p, steps)) && After(p, steps).mode == p.mode
    decreases |steps|
  {
    hide Inv;
    if steps != [] {
      StepKeeps(p, steps[0]);
      RunKeeps(Apply(p, steps[0]), steps[1..]);
    }
  }

  // In every reachable state, a registered task is in the queue, or in the hands of one
  // worker, or has been reported on once; the switch is read for it at most once and exactly
  // once if it is submitted or reported; it was submitted at most once, never if its dry run
  // failed, and exactly once if it was reported as relayed; its relay is noticed at most once,
  // and only then.
  lemma TaskConservation(mode: Mode, n: nat, steps: seq<Step>, t: Task)
    requires Runs(Init(mode, n), steps)
    ensures var p := After(Init(mode, n), steps);
            var rejections, relays := Count(Rejection, p.log, t), Count(Relay, p.log, t);
            var submissions, readings := Count(Submission, p.log, t), Count(Reading, p.log, t);
            && multiset(p.queue)[t] + Held(Holding, p.workers, t) + rejections + relays == Ind(Event.Registered(t) in p.log)
            && submissions <= readings <= 1
            && (rejections == 1 ==> submissions == 0 && readings == 1)
            && (relays == 1 ==> submissions == 1)
            && Count(Notification, p.log, t) <= relays
  {
    InitInv(mode, n);
    RunKeeps(Init(mode, n), steps);
    var p := After(Init(mode, n), steps);
    assert ConservedTask(p, t);
    CountedMeansLogged(Registration, p.log, t);
    HeldTogether(p.workers, t);
  }

  lemma {:induction false} HeldTogether(ws: seq<Worker>, t: Task)
    ensures Held(Unreported, ws, t) + Held(Unread, ws, t) <= Held(Holding, ws, t)
  {
    if ws != [] {
      HeldTogether(ws[1..], t);
    }
  }

  // Tasks are taken in the order of their registration, and the queue never exceeds its size.
  lemma FirstInFirstOut(mode: Mode, n: nat, steps: seq<Step>)
    requires Runs(Init(mode, n), steps)
    ensures var p := After(Init(mode, n), steps);
            && |p.queue| <= 1024
            && |p.queue| <= |Registrations(p.log)|
            && p.queue == Registrations(p.log)[|Registrations(p.log)| - |p.queue|..]
  {
    hide Runs, After, ConservedTask, WorkersJustified, LogJustified, Registrations, NoticesSince;
    InitInv(mode, n);
    RunKeeps(Init(mode, n), steps);
  }

  // Reports tell the truth, and workers obey the switch: no task is submitted before the
  // switch was read for it and, if that ordered a dry run, before that dry run succeeded; no
  // dry run is made that was not ordered; only relays that happened are noticed, and with
  // their own outcome. With obligatory dry runs no task is submitted before its own dry run
  // has succeeded.
  lemma ReportsAreTrue(mode: Mode, n: nat, steps: seq<Step>, i: nat)
    requires Runs(Init(mode, n), steps) && i < |After(Init(mode, n), steps).log|
    ensures var log := After(Init(mode, n), steps).log;
            match log[i]
            case Report(t, DryRunFailed) => DryRun(t, false) in log[..i]
            case Report(t, RelayFailed) => Submit(t, false) in log[..i]
            case Report(t, Ok) => Submit(t, true) in log[..i]
            case DryRun(t, _) => SwitchRead(t, true) in log[..i]
            case Submit(t, _) => Obeyed(log[..i], t) && (mode.Obligatory? ==> DryRun(t, true) in log[..i])
            case Noticed(t, ok) => Submit(t, ok) in log[..i]
            case _ => true
  {
    InitInv(mode, n);
    RunKeeps(Init(mode, n), steps);
    hide Runs, After, Obeyed, ConservedTask;
    var p := After(Init(mode, n), steps);
    assert EventJustified(p.mode, p.log[i], p.log[..i]);
  }

  ghost function Successes(log: seq<Event>, lo: nat, hi: nat): nat
    requires lo <= hi <= |log|
  {
    if lo == hi then 0 else Successes(log, lo, hi - 1) + Ind(log[hi - 1].Noticed? && log[hi - 1].ok)
  }

  lemma {:induction false} NoticesAfterFailure(log: seq<Event>, j: nat, i: nat)
    requires j < i <= |log| && log[j].Noticed? && !log[j].ok
    ensures NoticesSince(log[..i]) <= Successes(log, j + 1, i)
  {
    assert log[..i][..i - 1] == log[..i - 1];
    if i > j + 1 {
      NoticesAfterFailure(log, j, i - 1);
    }
  }

  // In optimistic mode the switch orders a dry run exactly when the successes noticed since
  // the last noticed failure, counted modulo 2^32 and from 32 if there was none, are fewer
  // than 32. In particular it does so until 32 successes have followed a failure.
  lemma DryRunGate(n: nat, steps: seq<Step>, i: nat)
    requires Runs(Init(Optimistic, n), steps) && i < |After(Init(Optimistic, n), steps).log|
    requires After(Init(Optimistic, n), steps).log[i].SwitchRead?
    ensures var log := After(Init(Optimistic, n), steps).log;
            && (log[i].dryRun <==> NoticesSince(log[..i]) % 0x1_0000_0000 < 32)
            && forall j | 0 <= j < i && log[j].Noticed? && !log[j].ok && Successes(log, j + 1, i) < 32
                 :: log[i].dryRun
  {
    hide Runs, After, Inv, Successes, NoticesSince;
    InitInv(Optimistic, n);
    RunKeeps(Init(Optimistic, n), steps);
    assert Init(Optimistic, n).mode == Optimistic;
    SwitchGate(After(Init(Optimistic, n), steps), i);
  }

  lemma SwitchGate(p: Pool, i: nat)
    requires Inv(p) && p.mode.Optimistic? && i < |p.log| && p.log[i].SwitchRead?
    ensures p.log[i].dryRun <==> NoticesSince(p.log[..i]) % U32 < OPTIMISTIC_DRY_RUN_THRESHOLD
    ensures forall j | 0 <= j < i && p.log[j].Noticed? && !p.log[j].ok && Successes(p.log, j + 1, i) < OPTIMISTIC_DRY_RUN_THRESHOLD
              :: p.log[i].dryRun
  {
    hide Successes, NoticesSince, ConservedTask;
    assert EventJustified(p.mode, p.log[i], p.log[..i]);
    forall j | 0 <= j < i && p.log[j].Noticed? && !p.log[j].ok && Successes(p.log, j + 1, i) < OPTIMISTIC_DRY_RUN_THRESHOLD
      ensures p.log[i].dryRun
    {
      NoticesAfterFailure(p.log, j, i);
    }
  }

  // -------- progress --------

  // How many steps a worker can take before it is idle again, at most.
  function WorkerWork(w: Worker): nat {
    match w
    case Idle => 0
    case Received(_) => 6
    case DryRunning(_) => 5
    case Ready(_) => 4
    case Submitted(_, _) => 3
    case Reported(_, _) => 2
    case Recharging => 1
    case DryRunRejected(_) => 1
  }

  function WorkersWork(ws: seq<Worker>): nat {
    if ws == [] then 0 else WorkerWork(ws[0]) + WorkersWork(ws[1..])
  }

  const STEPS_PER_TASK: nat := 7

  function Work(p: Pool): nat {
    STEPS_PER_TASK * |p.queue| + WorkersWork(p.workers)
  }

  lemma {:induction false} WorkUpdate(ws: seq<Worker>, w: nat, worker: Worker)
    requires w < |ws|
    ensures WorkersWork(ws[w := worker]) + WorkerWork(ws[w]) == WorkersWork(ws) + WorkerWork(worker)
  {
    hide WorkerWork;
    if w == 0 {
      assert ws[w := worker][1..] == ws[1..];
    } else {
      assert ws[w := worker][1..] == ws[1..][w - 1 := worker];
      WorkUpdate(ws[1..], w - 1, worker);
    }
  }

  // Registering a task adds seven steps of work; every other step does some.
  lemma StepDoesWork(p: Pool, step: Step)
    requires Enabled(p, step)
    ensures if step.Register? then Work(Apply(p, step)) == Work(p) + STEPS_PER_TASK else Work(Apply(p, step)) < Work(p)
    ensures |Apply(p, step).workers| == |p.workers|
  {
    hide WorkersWork;
    var q := Apply(p, step);
    if !step.Register? {
      WorkUpdate(p.workers, step.w, q.workers[step.w]);
    }
  }

  // A worker that is not idle, or a queue that an idle worker can take from, has a step.
  function NextStep(p: Pool, w: nat): Step
    requires w < |p.workers|
  {
    match p.workers[w]
    case Idle => Receive(w)
    case Received(_) => ReadSwitch(w)
    case DryRunning(_) => DryRunDone(w, true)
    case Ready(_) => SubmitDone(w, true)
    case Submitted(_, _) => SendReport(w)
    case DryRunRejected(_) => SendReport(w)
    case Reported(_, _) => Notice(w)
    case Recharging => Recharge(w)
  }

  lemma {:induction false} SomeoneWorks(ws: seq<Worker>) returns (w: nat)
    requires WorkersWork(ws) > 0
    ensures w < |ws| && !ws[w].Idle?
  {
    if WorkerWork(ws[0]) > 0 {
      w := 0;
    } else {
      var v := SomeoneWorks(ws[1..]);
      w := v + 1;
    }
  }

  // With a worker in the pool, work that is left can go on without a new task.
  lemma Progress(p: Pool) returns (step: Step)
    requires |p.workers| >= 1 && Work(p) > 0
    ensures Enabled(p, step) && !step.Register?
  {
    if WorkersWork(p.workers) > 0 {
      var w := SomeoneWorks(p.workers);
      step := NextStep(p, w);
    } else {
      step := NextStep(p, 0);
    }
  }

  function Registers(steps: seq<Step>): nat {
    if steps == [] then 0 else (if steps[0].Register? then 1 else 0) + Registers(steps[1..])
  }

  // In every run the workers take at most seven steps for every task.
  lemma {:induction false} WorkBounded(p: Pool, steps: seq<Step>)
    requires Runs(p, steps)
    ensures |steps| - Registers(steps) + Work(After(p, steps)) <= Work(p) + STEPS_PER_TASK * Registers(steps)
    ensures |After(p, steps).workers| == |p.workers|
    decreases |steps|
  {
    hide Work, Enabled, Apply;
    if steps != [] {
      StepDoesWork(p, steps[0]);
      WorkBounded(Apply(p, steps[0]), steps[1..]);
    }
  }

  lemma {:induction false} NoWorkNothingHeld(ws: seq<Worker>, t: Task)
    requires WorkersWork(ws) == 0
    ensures Held(Holding, ws, t) == 0
  {
    if ws != [] {
      NoWorkNothingHeld(ws[1..], t);
    }
  }

  // Hence the pool drains: a run in which only registrations are still possible, which the
  // bound reaches after finitely many steps, has reported every registered task exactly once.
  lemma AllReported(mode: Mode, n: nat, steps: seq<Step>, t: Task)
    requires n >= 1 && Runs(Init(mode, n), steps)
    requires forall step :: Enabled(After(Init(mode, n), steps), step) ==> step.Register?
    requires Event.Registered(t) in After(Init(mode, n), steps).log
    ensures var log := After(Init(mode, n), steps).log;
            Count(Rejection, log, t) + Count(Relay, log, t) == 1
  {
    hide Runs, After, Enabled, Count;
    TaskConservation(mode, n, steps, t);
    WorkBounded(Init(mode, n), steps);
    var p := After(Init(mode, n), steps);
    if Work(p) > 0 {
      var step := Progress(p);
    }
    NoWorkNothingHeld(p.workers, t);
    assert p.queue == [];
  }
}
