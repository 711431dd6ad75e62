/** Safety of whole runs of the task protocol, for every interleaving of its steps. */
module LifecycleRuns {
  import opened Common
  import opened TaskBoard
  import opened StateSync
  import opened TaskLifecycle

  datatype Stamped = Stamped(time: real, event: Event)

  /** A run: consecutive states of enabled steps, stamped by a clock that never goes back. */
  ghost predicate Run(cfg: Config, tr: seq<Stamped>, ss: seq<State>) {
    && |ss| == |tr| + 1
    && Init(ss[0])
    && (forall i :: 0 <= i < |tr| ==>
          Enabled(cfg, ss[i], tr[i].event, tr[i].time) && ss[i + 1] == Step(cfg, ss[i], tr[i].event, tr[i].time))
    && (forall i, j :: 0 <= i <= j < |tr| ==> tr[i].time <= tr[j].time)
  }

  lemma {:induction false} RunInv(cfg: Config, tr: seq<Stamped>, ss: seq<State>, k: nat)
    requires Run(cfg, tr, ss) && k <= |tr|
    ensures Inv(ss[k])
  {
    if k == 0 {
      InitInv(ss[0]);
    } else {
      RunInv(cfg, tr, ss, k - 1);
      StepKeeps(cfg, ss[k - 1], tr[k - 1].event, tr[k - 1].time);
    }
  }

  // ---- messages -------------------------------------------------------------------

  /** The agent acknowledged the task or reported progress on it. */
  predicate Signs(e: Event, id: string) {
    (e.Ack? || e.Progress?) && e.id == id && id != ""
  }

  /** Any message that concerns the task and stops or restarts its timer. */
  predicate Stops(e: Event, id: string) {
    (e.Ack? || e.Progress? || e.Complete? || e.Fail? || e.Result?) && e.id == id && id != ""
  }

  /** The agent gave a sign of life for the task: a message about it, or a report with its status. */
  predicate Touches(e: Event, id: string) {
    Stops(e, id) || (e.SyncReport? && Mentioned(e.report, id))
  }

  /** The message itself sets the state of the task to "dangling". */
  predicate Literal(e: Event, id: string) {
    match e
    case Ack(_, i, status) => i == id && id != "" && status == Text("dangling")
    case Progress(_, i, status) => i == id && id != "" && status == Text("dangling")
    case Result(_, i, status, _, _) => i == id && id != "" && status == Text("dangling")
    case SyncReport(_, report, _) => Mentioned(report, id) && LastStatus(report, id) == "dangling"
    case _ => false
  }

  // ---- what one step contributes to the history of a run ----------------------------

  ghost predicate TimedOut(s: State, id: string) {
    id in s.tasks.vals && s.tasks.vals[id].state == "failed" && s.tasks.vals[id].error == Some("timeout")
  }

  ghost predicate IsDangling(s: State, id: string) {
    id in s.tasks.vals && s.tasks.vals[id].state == "dangling"
  }

  /** A timer is sending its cancel message because it already was and nothing concerned its
      task, or because it has just failed the task. */
  ghost predicate SendingLink(s: State, e: Event, s': State, h: nat) {
    && h < |s.timeouts|
    && var id := s.timeouts[h].key;
    || (s.timeouts[h].phase.Sending? && !Stops(e, id))
    || (e == TimeoutFire(h, true) && TimedOut(s', id))
  }

  /** A task is dangling because it already was and its agent stayed silent about it, or
      because its owner has just disconnected. */
  ghost predicate DanglingLink(s: State, e: Event, id: string) {
    && id in s.tasks.vals
    && (|| (IsDangling(s, id) && !Touches(e, id))
        || (e == Dangle(s.tasks.vals[id].owner) && id in ToDangle(s.tasks, s.tasks.vals[id].owner)))
  }

  ghost predicate SignLink(s': State, id: string, now: real) {
    id in s'.taskTimers && s'.taskTimers[id] < |s'.timeouts| && s'.timeouts[s'.taskTimers[id]].start == now
  }

  ghost predicate GraceLink(s': State, agent: string, now: real) {
    agent in s'.graceTimers && s'.graceTimers[agent] < |s'.graces| && s'.graces[s'.graceTimers[agent]].start == now
  }

  ghost predicate Link(s: State, e: Event, now: real, s': State) {
    && Inv(s) && Inv(s') && Evolves(s, s', now)
    && (forall id :: Signs(e, id) ==> SignLink(s', id, now))
    && (forall h :: 0 <= h < |s'.timeouts| && s'.timeouts[h].phase.Sending? ==> SendingLink(s, e, s', h))
    && (e.Dangle? && ToDangle(s.tasks, e.agent) != {} ==> GraceLink(s', e.agent, now))
    && (forall id :: IsDangling(s', id) ==> DanglingLink(s, e, id) || Literal(e, id))
  }

  lemma CancelSending(s: State, id: string, h: nat)
    requires TimersKept(s.timeouts, s.taskTimers)
    requires var s' := CancelTimeout(s, id); h < |s'.timeouts| && s'.timeouts[h].phase.Sending?
    ensures h < |s.timeouts| && s.timeouts[h].phase.Sending? && s.timeouts[h].key != id
  {
  }

  lemma ScheduleSending(s: State, id: string, now: real, h: nat)
    requires TimersKept(s.timeouts, s.taskTimers)
    requires var s' := ScheduleTimeout(s, id, now); h < |s'.timeouts| && s'.timeouts[h].phase.Sending?
    ensures h < |s.timeouts| && s.timeouts[h].phase.Sending? && s.timeouts[h].key != id
  {
    CancelSending(s, id, h);
  }

  lemma StoreSending(cfg: Config, s: State, id: string, record: Task, status: string, result: Option<string>, h: nat)
    requires TimersKept(s.timeouts, s.taskTimers)
    requires var s' := Store(cfg, s, id, record, status, result); h < |s'.timeouts| && s'.timeouts[h].phase.Sending?
    ensures h < |s.timeouts| && s.timeouts[h].phase.Sending? && s.timeouts[h].key != id
  {
    CancelSending(s.(tasks := s.tasks.Put(id, record),
                     board := Reconcile(cfg.table, s.board, s.dispatched, id, status, result)), id, h);
  }

  lemma MessageSending(cfg: Config, s: State, e: Event, now: real, h: nat)
    requires Inv(s) && (e.Ack? || e.Progress? || e.Complete? || e.Fail? || e.Result?) && e.id != ""
    requires var s' := Step(cfg, s, e, now); h < |s'.timeouts| && s'.timeouts[h].phase.Sending?
    ensures h < |s.timeouts| && s.timeouts[h].phase.Sending? && s.timeouts[h].key != e.id
  {
    var r := Record(s.tasks, e.agent, e.id);
    match e
    case Ack(agent, id, status) =>
      ScheduleSending(s.(tasks := s.tasks.Put(id, r.(state := status.StateOr("accepted"))),
                         board := Reconcile(cfg.table, s.board, s.dispatched, id, "running", None)), id, now, h);
    case Progress(agent, id, status) =>
      ScheduleSending(s.(tasks := s.tasks.Put(id, r.(state := status.StateOr("working")))), id, now, h);
    case Complete(agent, id, result) =>
      StoreSending(cfg, s, id, r.(state := "completed", result := result.ValueOr("{}"), error := None), "completed",
                   result.Value(), h);
    case Fail(agent, id, error) =>
      StoreSending(cfg, s, id, r.(state := "failed", error := error.ValueOr("Unknown error")), "failed", None, h);
    case Result(agent, id, status, result, error) =>
      var st := status.StateOr("completed");
      StoreSending(cfg, s, id, r.(state := st, result := result.ValueOr("{}"), error := error), st, result.Value(), h);
  }

  lemma TimeoutSending(cfg: Config, s: State, e: Event, now: real, h: nat)
    requires Inv(s) && Enabled(cfg, s, e, now) && (e.TimeoutFire? || e.TimeoutSent?)
    requires var s' := Step(cfg, s, e, now); h < |s'.timeouts| && s'.timeouts[h].phase.Sending?
    ensures SendingLink(s, e, Step(cfg, s, e, now), h)
  {
  }

  lemma SendingStep(cfg: Config, s: State, e: Event, now: real, h: nat)
    requires Inv(s) && Enabled(cfg, s, e, now)
    requires var s' := Step(cfg, s, e, now); h < |s'.timeouts| && s'.timeouts[h].phase.Sending?
    ensures SendingLink(s, e, Step(cfg, s, e, now), h)
  {
    if e.TimeoutFire? || e.TimeoutSent? {
      TimeoutSending(cfg, s, e, now, h);
    } else if e.Ack? || e.Progress? || e.Complete? || e.Fail? || e.Result? {
      if e.id != "" {
        MessageSending(cfg, s, e, now, h);
      }
    } else if e.DispatchSent? {
      var id := e.id;
      ScheduleSending(s.(tasks := s.tasks.Put(id, s.tasks.vals[id].(state := "forwarded")),
                         inFlight := s.inFlight - {id}), id, now, h);
    } else if e.CallbackWrite? {
      var record := CallbackRecord(s.tasks.vals[e.id], e.failed, e.result, e.error);
      StoreSending(cfg, s, e.id, record, record.state, e.result, h);
    } else {
      assert h < |s.timeouts| && s.timeouts[h].phase.Sending?;
    }
  }

  lemma SyncDangling(cfg: Config, s: State, e: Event, now: real, id: string)
    requires Inv(s) && e.SyncReport? && IsDangling(Step(cfg, s, e, now), id)
    ensures DanglingLink(s, e, id) || Literal(e, id)
  {
    SyncMemoryExact(cfg.table, s.tasks, s.dispatched, s.board, e.agent, e.report, e.unreadable, id);
  }

  lemma MessageDangling(cfg: Config, s: State, e: Event, now: real, id: string)
    requires Enabled(cfg, s, e, now) && IsDangling(Step(cfg, s, e, now), id)
    requires e.Ack? || e.Progress? || e.Complete? || e.Fail? || e.Result?
    ensures DanglingLink(s, e, id) || Literal(e, id)
  {
    if e.id == "" {
      assert Step(cfg, s, e, now) == s;
    }
  }

  lemma TimerDangling(cfg: Config, s: State, e: Event, now: real, id: string)
    requires Enabled(cfg, s, e, now) && IsDangling(Step(cfg, s, e, now), id)
    requires e.Dangle? || e.GraceFire? || e.TimeoutFire? || e.TimeoutSent?
    ensures DanglingLink(s, e, id)
  {
  }

  lemma DanglingStep(cfg: Config, s: State, e: Event, now: real, id: string)
    requires Inv(s) && Enabled(cfg, s, e, now) && IsDangling(Step(cfg, s, e, now), id)
    ensures DanglingLink(s, e, id) || Literal(e, id)
  {
    if e.SyncReport? {
      SyncDangling(cfg, s, e, now, id);
    } else if e.Dangle? || e.GraceFire? || e.TimeoutFire? || e.TimeoutSent? {
      TimerDangling(cfg, s, e, now, id);
    } else if e.Ack? || e.Progress? || e.Complete? || e.Fail? || e.Result? {
      MessageDangling(cfg, s, e, now, id);
    } else {
      assert IsDangling(s, id);
    }
  }

  lemma SignStep(cfg: Config, s: State, e: Event, now: real, id: string)
    requires Enabled(cfg, s, e, now) && Signs(e, id)
    ensures SignLink(Step(cfg, s, e, now), id, now)
  {
  }

  lemma GraceStepLink(cfg: Config, s: State, agent: string, now: real)
    requires ToDangle(s.tasks, agent) != {}
    ensures GraceLink(DangleStep(cfg, s, agent, now), agent, now)
  {
  }

  lemma StepLinks(cfg: Config, s: State, e: Event, now: real)
    requires Inv(s) && Enabled(cfg, s, e, now)
    ensures Link(s, e, now, Step(cfg, s, e, now))
  {
    var s' := Step(cfg, s, e, now);
    StepKeeps(cfg, s, e, now);
    forall id | Signs(e, id) {
      SignStep(cfg, s, e, now, id);
    }
    forall h | 0 <= h < |s'.timeouts| && s'.timeouts[h].phase.Sending? {
      SendingStep(cfg, s, e, now, h);
    }
    if e.Dangle? && ToDangle(s.tasks, e.agent) != {} {
      GraceStepLink(cfg, s, e.agent, now);
    }
    forall id | IsDangling(s', id) {
      DanglingStep(cfg, s, e, now, id);
    }
  }

  /** A run seen as a chain of linked states. */
  ghost predicate Chain(tr: seq<Stamped>, ss: seq<State>) {
    && |ss| == |tr| + 1
    && (forall i :: 0 <= i < |tr| ==> Link(ss[i], tr[i].event, tr[i].time, ss[i + 1]))
    && (forall i, j :: 0 <= i <= j < |tr| ==> tr[i].time <= tr[j].time)
    && !(exists id :: IsDangling(ss[0], id)) && ss[0].timeouts == []
  }

  lemma RunChain(cfg: Config, tr: seq<Stamped>, ss: seq<State>)
    requires Run(cfg, tr, ss)
    ensures Chain(tr, ss)
  {
    forall i | 0 <= i < |tr|
      ensures Link(ss[i], tr[i].event, tr[i].time, ss[i + 1])
    {
      RunInv(cfg, tr, ss, i);
      StepLinks(cfg, ss[i], tr[i].event, tr[i].time);
    }
  }

  // ---- records --------------------------------------------------------------------

  lemma {:induction false} ChainRecords(tr: seq<Stamped>, ss: seq<State>, i: nat, j: nat)
    requires Chain(tr, ss) && i <= j <= |tr|
    ensures RecordsKept(ss[i].tasks, ss[j].tasks)
    decreases j - i
  {
    if i < j {
      assert Link(ss[i], tr[i].event, tr[i].time, ss[i + 1]);
      ChainRecords(tr, ss, i + 1, j);
    }
  }

  /** Over every run no task record disappears or changes owner. */
  lemma RecordsPersist(cfg: Config, tr: seq<Stamped>, ss: seq<State>, i: nat, j: nat)
    requires Run(cfg, tr, ss) && i <= j <= |tr|
    ensures RecordsKept(ss[i].tasks, ss[j].tasks)
  {
    RunChain(cfg, tr, ss);
    ChainRecords(tr, ss, i, j);
  }

  /** The disconnect, grace and timeout steps never touch a completed, failed or cancelled record. */
  lemma TerminalUntouched(cfg: Config, s: State, e: Event, now: real, id: string)
    requires Enabled(cfg, s, e, now)
    requires e.Dangle? || e.GraceFire? || e.TimeoutFire? || e.TimeoutSent?
    requires id in s.tasks.vals && s.tasks.vals[id].state in {"completed", "failed", "cancelled"}
    ensures var s' := Step(cfg, s, e, now); id in s'.tasks.vals && s'.tasks.vals[id] == s.tasks.vals[id]
  {
  }

  /** The event reopens a finished record of the task: a message whose state is not terminal, a
      report whose last status for it is not, or the end of a dispatch. */
  predicate Reopens(e: Event, id: string) {
    match e
    case Ack(_, i, status) => i == id && id != "" && !Terminal(status.StateOr("accepted"))
    case Progress(_, i, status) => i == id && id != "" && !Terminal(status.StateOr("working"))
    case Result(_, i, status, _, _) => i == id && id != "" && !Terminal(status.StateOr("completed"))
    case SyncReport(_, report, _) => Mentioned(report, id) && !Terminal(LastStatus(report, id))
    case DispatchSent(i) => i == id
    case _ => false
  }

  ghost predicate IsFinished(s: State, id: string) {
    id in s.tasks.vals && Terminal(s.tasks.vals[id].state)
  }

  lemma MessageReopens(cfg: Config, s: State, e: Event, now: real, id: string)
    requires Enabled(cfg, s, e, now) && IsFinished(s, id)
    requires e.Ack? || e.Progress? || e.Complete? || e.Fail? || e.Result?
    ensures IsFinished(Step(cfg, s, e, now), id) <==> !Reopens(e, id)
  {
    if e.id == "" {
      assert Step(cfg, s, e, now) == s;
    }
  }

  lemma SyncReopens(cfg: Config, s: State, e: Event, now: real, id: string)
    requires Inv(s) && e.SyncReport? && IsFinished(s, id)
    ensures IsFinished(Step(cfg, s, e, now), id) <==> !Reopens(e, id)
  {
    SyncMemoryExact(cfg.table, s.tasks, s.dispatched, s.board, e.agent, e.report, e.unreadable, id);
  }

  lemma RequestReopens(cfg: Config, s: State, e: Event, now: real, id: string)
    requires Enabled(cfg, s, e, now) && IsFinished(s, id)
    requires e.DispatchBegin? || e.DispatchSent? || e.DispatchFailed? || e.CallbackCheck? || e.CallbackWrite?
             || e.BoardDispatch? || e.BoardWrite?
    ensures IsFinished(Step(cfg, s, e, now), id) <==> !Reopens(e, id)
  {
  }

  /** Terminal states are not absorbing: exactly the reopening events lead out of them. */
  lemma ReopensExactly(cfg: Config, s: State, e: Event, now: real, id: string)
    requires Inv(s) && Enabled(cfg, s, e, now) && IsFinished(s, id)
    ensures IsFinished(Step(cfg, s, e, now), id) <==> !Reopens(e, id)
  {
    if e.SyncReport? {
      SyncReopens(cfg, s, e, now, id);
    } else if e.Dangle? || e.GraceFire? || e.TimeoutFire? || e.TimeoutSent? {
      TerminalUntouched(cfg, s, e, now, id);
    } else if e.Ack? || e.Progress? || e.Complete? || e.Fail? || e.Result? {
      MessageReopens(cfg, s, e, now, id);
    } else {
      RequestReopens(cfg, s, e, now, id);
    }
  }

  ghost predicate FinishChain(tr: seq<Stamped>, ss: seq<State>, id: string) {
    && |ss| == |tr| + 1
    && (forall j :: 0 <= j < |tr| && IsFinished(ss[j], id) ==>
        (IsFinished(ss[j + 1], id) <==> !Reopens(tr[j].event, id)))
  }

  lemma RunFinishChain(cfg: Config, tr: seq<Stamped>, ss: seq<State>, id: string)
    requires Run(cfg, tr, ss)
    ensures FinishChain(tr, ss, id)
  {
    forall j | 0 <= j < |tr| && IsFinished(ss[j], id)
      ensures IsFinished(ss[j + 1], id) <==> !Reopens(tr[j].event, id)
    {
      RunInv(cfg, tr, ss, j);
      ReopensExactly(cfg, ss[j], tr[j].event, tr[j].time, id);
    }
  }

  lemma {:induction false} ChainFinished(tr: seq<Stamped>, ss: seq<State>, i: nat, k: nat, id: string)
    requires FinishChain(tr, ss, id) && i <= k <= |tr| && IsFinished(ss[i], id)
    ensures (forall j :: i <= j <= k ==> IsFinished(ss[j], id)) <==>
            forall j :: i <= j < k ==> !Reopens(tr[j].event, id)
    decreases k
  {
    if i < k {
      ChainFinished(tr, ss, i, k - 1, id);
      var e := tr[k - 1].event;
      assert IsFinished(ss[k - 1], id) ==> (IsFinished(ss[k], id) <==> !Reopens(e, id));
    }
  }

  /** Over every run a finished task stays finished exactly as long as nothing reopens it. */
  lemma StaysFinished(cfg: Config, tr: seq<Stamped>, ss: seq<State>, i: nat, k: nat, id: string)
    requires Run(cfg, tr, ss) && i <= k <= |tr| && IsFinished(ss[i], id)
    ensures (forall j :: i <= j <= k ==> IsFinished(ss[j], id)) <==>
            forall j :: i <= j < k ==> !Reopens(tr[j].event, id)
  {
    RunFinishChain(cfg, tr, ss, id);
    ChainFinished(tr, ss, i, k, id);
  }

  // ---- timers ---------------------------------------------------------------------

  /** The handle is stored under its key and no other timer of that key is alive. */
  ghost predicate SoleTimer(timers: seq<Timer>, stored: map<string, nat>, h: nat) {
    && h < |timers|
    && timers[h].key in stored && stored[timers[h].key] == h
    && (forall h' :: 0 <= h' < |timers| && h' != h && timers[h'].key == timers[h].key ==> !timers[h'].Live())
  }

  /** In every reachable state a timer that fires or finishes is the only live one of its key and
      the one stored under it, so removing that entry never drops another timer's. */
  lemma FinishingTimer(cfg: Config, tr: seq<Stamped>, ss: seq<State>, k: nat)
    requires Run(cfg, tr, ss) && k < |tr|
    ensures tr[k].event.GraceFire? ==> SoleTimer(ss[k].graces, ss[k].graceTimers, tr[k].event.handle)
    ensures tr[k].event.TimeoutFire? || tr[k].event.TimeoutSent? ==>
            SoleTimer(ss[k].timeouts, ss[k].taskTimers, tr[k].event.handle)
  {
    RunInv(cfg, tr, ss, k);
  }

  // ---- the task timeout -----------------------------------------------------------

  /** After an ack or progress message every live timer of the task started no earlier. */
  lemma {:induction false} TimerAfterSign(tr: seq<Stamped>, ss: seq<State>, k: nat, j: nat, h: nat)
    requires Chain(tr, ss) && k < j <= |tr| && h < |ss[j].timeouts| && ss[j].timeouts[h].Live()
    requires Signs(tr[k].event, ss[j].timeouts[h].key)
    ensures ss[j].timeouts[h].start >= tr[k].time
    decreases j
  {
    assert Link(ss[j - 1], tr[j - 1].event, tr[j - 1].time, ss[j]);
    if j - 1 == k {
      assert SignLink(ss[j], ss[j].timeouts[h].key, tr[k].time);
    } else if h < |ss[j - 1].timeouts| {
      TimerAfterSign(tr, ss, k, j - 1, h);
    }
  }

  /** A timeout fails its task, and only its task, and only when at least `taskTimeout` seconds
      have passed since every ack and every progress message for it. */
  lemma TimeoutNotEarly(cfg: Config, tr: seq<Stamped>, ss: seq<State>, j: nat, id: string)
    requires Run(cfg, tr, ss) && j < |tr| && tr[j].event.TimeoutFire?
    requires id in ss[j].tasks.vals && ss[j + 1].tasks.vals[id] != ss[j].tasks.vals[id]
    ensures id == ss[j].timeouts[tr[j].event.handle].key
    ensures ss[j + 1].tasks.vals[id] == ss[j].tasks.vals[id].(state := "failed", error := Some("timeout"))
    ensures forall k :: 0 <= k < j && Signs(tr[k].event, id) ==> tr[j].time >= tr[k].time + cfg.taskTimeout
  {
    var h := tr[j].event.handle;
    RunChain(cfg, tr, ss);
    forall k | 0 <= k < j && Signs(tr[k].event, id)
      ensures tr[j].time >= tr[k].time + cfg.taskTimeout
    {
      TimerAfterSign(tr, ss, k, j, h);
    }
  }

  /** The timer `h` failed its task at step `i` and nothing has concerned the task since. */
  ghost predicate SendingSince(tr: seq<Stamped>, ss: seq<State>, i: int, j: int, h: nat)
    requires |ss| == |tr| + 1
  {
    && 0 <= i < j < |ss| && h < |ss[i].timeouts|
    && tr[i].event == TimeoutFire(h, true)
    && TimedOut(ss[i + 1], ss[i].timeouts[h].key)
    && (forall k :: i < k < j ==> !Stops(tr[k].event, ss[i].timeouts[h].key))
  }

  ghost predicate IsSending(s: State, h: nat) {
    h < |s.timeouts| && s.timeouts[h].phase.Sending?
  }

  lemma {:induction false} SendingHistory(tr: seq<Stamped>, ss: seq<State>, j: nat, h: nat) returns (i: nat)
    requires |ss| == |tr| + 1 && j <= |tr| && IsSending(ss[j], h) && !IsSending(ss[0], h)
    requires forall k :: 0 <= k < j && IsSending(ss[k + 1], h) ==>
                         && SendingLink(ss[k], tr[k].event, ss[k + 1], h)
                         && ss[k + 1].timeouts[h].key == ss[k].timeouts[h].key
    ensures SendingSince(tr, ss, i, j, h) && ss[i].timeouts[h].key == ss[j].timeouts[h].key
  {
    var e := tr[j - 1].event;
    assert SendingLink(ss[j - 1], e, ss[j], h);
    if IsSending(ss[j - 1], h) && !Stops(e, ss[j - 1].timeouts[h].key) {
      i := SendingHistory(tr, ss, j - 1, h);
    } else {
      i := j - 1;
    }
  }

  /** The board write of a timeout runs only if no ack, progress, complete, fail or result for
      the task arrived while the cancel message was being sent. */
  lemma TimeoutBoardWrite(cfg: Config, tr: seq<Stamped>, ss: seq<State>, j: nat)
    requires Run(cfg, tr, ss) && j < |tr| && tr[j].event.TimeoutSent?
    ensures exists i :: SendingSince(tr, ss, i, j, tr[j].event.handle)
  {
    var h := tr[j].event.handle;
    RunChain(cfg, tr, ss);
    forall k | 0 <= k < j && IsSending(ss[k + 1], h)
      ensures SendingLink(ss[k], tr[k].event, ss[k + 1], h) && ss[k + 1].timeouts[h].key == ss[k].timeouts[h].key
    {
      assert Link(ss[k], tr[k].event, tr[k].time, ss[k + 1]);
    }
    var i := SendingHistory(tr, ss, j, h);
  }

  // ---- the grace period -----------------------------------------------------------

  /** The task has been dangling without interruption, and its agent silent about it, since the
      disconnect of its owner at step `i`. */
  ghost predicate DanglingSince(tr: seq<Stamped>, ss: seq<State>, i: int, j: int, id: string)
    requires |ss| == |tr| + 1
  {
    && 0 <= i < j < |ss|
    && id in ss[i].tasks.vals && id in ToDangle(ss[i].tasks, ss[i].tasks.vals[id].owner)
    && tr[i].event == Dangle(ss[i].tasks.vals[id].owner)
    && (forall k :: i < k <= j ==> IsDangling(ss[k], id))
    && (forall k :: i < k < j ==> !Touches(tr[k].event, id))
  }

  /** Every message that itself made the task dangle was followed by a moment at which the task
      was not dangling. */
  ghost predicate LiteralCleared(tr: seq<Stamped>, ss: seq<State>, j: nat, id: string)
    requires |ss| == |tr| + 1 && j <= |tr|
  {
    forall k :: 0 <= k < j && Literal(tr[k].event, id) ==> exists m :: k < m <= j && !IsDangling(ss[m], id)
  }

  lemma {:induction false} DanglingHistory(tr: seq<Stamped>, ss: seq<State>, j: nat, id: string) returns (i: nat)
    requires |ss| == |tr| + 1 && j <= |tr| && IsDangling(ss[j], id) && !IsDangling(ss[0], id)
    requires LiteralCleared(tr, ss, j, id)
    requires forall k :: 0 <= k < j && IsDangling(ss[k + 1], id) ==>
                         DanglingLink(ss[k], tr[k].event, id) || Literal(tr[k].event, id)
    ensures DanglingSince(tr, ss, i, j, id)
  {
    var e := tr[j - 1].event;
    assert !Literal(e, id);
    assert DanglingLink(ss[j - 1], e, id);
    if IsDangling(ss[j - 1], id) && !Touches(e, id) {
      forall k | 0 <= k < j - 1 && Literal(tr[k].event, id)
        ensures exists m :: k < m <= j - 1 && !IsDangling(ss[m], id)
      {
        var m :| k < m <= j && !IsDangling(ss[m], id);
      }
      i := DanglingHistory(tr, ss, j - 1, id);
    } else {
      i := j - 1;
    }
  }

  lemma DanglingCleared(tr: seq<Stamped>, ss: seq<State>, i: int, j: nat, id: string)
    requires |ss| == |tr| + 1 && j <= |tr| && DanglingSince(tr, ss, i, j, id)
    ensures LiteralCleared(tr, ss, j, id)
  {
    forall k | 0 <= k < j && Literal(tr[k].event, id)
      ensures exists m :: k < m <= j && !IsDangling(ss[m], id)
    {
      assert k > i ==> Touches(tr[k].event, id);
      assert !IsDangling(ss[i], id);
    }
  }

  lemma RunDanglingHistory(cfg: Config, tr: seq<Stamped>, ss: seq<State>, j: nat, id: string) returns (i: nat)
    requires Run(cfg, tr, ss) && j <= |tr| && IsDangling(ss[j], id) && LiteralCleared(tr, ss, j, id)
    ensures DanglingSince(tr, ss, i, j, id)
  {
    RunChain(cfg, tr, ss);
    forall k | 0 <= k < j && IsDangling(ss[k + 1], id)
      ensures DanglingLink(ss[k], tr[k].event, id) || Literal(tr[k].event, id)
    {
      assert Link(ss[k], tr[k].event, tr[k].time, ss[k + 1]);
    }
    i := DanglingHistory(tr, ss, j, id);
  }

  /** A dangling task got there by a disconnect of its owner, without interruption or sign of life
      since, exactly when no message has itself set the present "dangling". */
  lemma DanglingExactly(cfg: Config, tr: seq<Stamped>, ss: seq<State>, j: nat, id: string)
    requires Run(cfg, tr, ss) && j <= |tr| && IsDangling(ss[j], id)
    ensures (exists i :: DanglingSince(tr, ss, i, j, id)) <==> LiteralCleared(tr, ss, j, id)
  {
    if LiteralCleared(tr, ss, j, id) {
      var i := RunDanglingHistory(cfg, tr, ss, j, id);
    }
    if i :| DanglingSince(tr, ss, i, j, id) {
      DanglingCleared(tr, ss, i, j, id);
    }
  }

  /** A fresh dangle restarts the agent's timer: afterwards every live grace timer of the agent
      started no earlier than that dangle. */
  lemma {:induction false} GraceAfterDangle(tr: seq<Stamped>, ss: seq<State>, i: nat, j: nat, h: nat)
    requires Chain(tr, ss) && i < j <= |tr| && h < |ss[j].graces| && ss[j].graces[h].Live()
    requires tr[i].event == Dangle(ss[j].graces[h].key) && ToDangle(ss[i].tasks, ss[j].graces[h].key) != {}
    ensures ss[j].graces[h].start >= tr[i].time
    decreases j
  {
    assert Link(ss[j - 1], tr[j - 1].event, tr[j - 1].time, ss[j]);
    if j - 1 == i {
      assert GraceLink(ss[j], ss[j].graces[h].key, tr[i].time);
    } else if h < |ss[j - 1].graces| {
      GraceAfterDangle(tr, ss, i, j - 1, h);
    }
  }

  /** In every interleaving, the end of a grace period changes only dangling tasks of that agent and
      fails them; and such a task has been dangling without interruption and without a sign of life
      for at least the grace period, since a disconnect, exactly when no message has itself set its
      present "dangling". */
  lemma GraceNotEarly(cfg: Config, tr: seq<Stamped>, ss: seq<State>, j: nat, id: string)
    requires Run(cfg, tr, ss) && j < |tr| && tr[j].event.GraceFire?
    requires id in ss[j].tasks.vals && ss[j + 1].tasks.vals[id] != ss[j].tasks.vals[id]
    ensures IsDangling(ss[j], id) && ss[j].tasks.vals[id].owner == ss[j].graces[tr[j].event.handle].key
    ensures ss[j + 1].tasks.vals[id] ==
            ss[j].tasks.vals[id].(state := "failed", error := Some("agent_disconnected_timeout"))
    ensures (exists i :: DanglingSince(tr, ss, i, j, id) && tr[j].time >= tr[i].time + cfg.grace) <==>
            LiteralCleared(tr, ss, j, id)
  {
    var h := tr[j].event.handle;
    assert IsDangling(ss[j], id) && ss[j].tasks.vals[id].owner == ss[j].graces[h].key;
    if LiteralCleared(tr, ss, j, id) {
      var i := RunDanglingHistory(cfg, tr, ss, j, id);
      RunChain(cfg, tr, ss);
      ChainRecords(tr, ss, i, j);
      GraceAfterDangle(tr, ss, i, j, h);
    }
    if i :| DanglingSince(tr, ss, i, j, id) {
      DanglingCleared(tr, ss, i, j, id);
    }
  }

  // ---- no dangling task is forgotten ----------------------------------------------

  ghost predicate Uncovered(s: State, id: string) {
    IsDangling(s, id) && s.tasks.vals[id].owner !in s.graceTimers
  }

  /** Every dangling task has a running grace timer that will fail it. */
  ghost predicate Covered(s: State) {
    forall id :: !Uncovered(s, id)
  }

  /** The step is a report that heals a board task, and so cancels the agent's grace timer. */
  predicate Heals(cfg: Config, s: State, e: Event) {
    e.SyncReport? && Healed(cfg.table, s.board, s.dispatched, e.unreadable, e.report) > 0
  }

  /** Grace timers disappear only by firing, which fails every dangling task of the agent, or by
      a healing report. */
  lemma GraceTimersStay(cfg: Config, s: State, e: Event, now: real, agent: string)
    requires Enabled(cfg, s, e, now) && !Heals(cfg, s, e) && agent in s.graceTimers
    ensures agent in Step(cfg, s, e, now).graceTimers || (e.GraceFire? && s.graces[e.handle].key == agent)
  {
  }

  /** The owner of a task after a message that sets its state. */
  function OwnerAfter(s: State, e: Event, id: string): string
    requires Literal(e, id)
  {
    if id in s.tasks.vals then s.tasks.vals[id].owner else e.agent
  }

  /** The step leaves the task dangling without a grace timer: the message itself makes it dangle
      while its owner has no timer or loses it, or a healing report is silent about it. */
  predicate Strays(cfg: Config, s: State, e: Event, id: string) {
    || (Literal(e, id)
        && (OwnerAfter(s, e, id) !in s.graceTimers || (Heals(cfg, s, e) && OwnerAfter(s, e, id) == e.agent)))
    || (Heals(cfg, s, e) && id in s.tasks.vals && s.tasks.vals[id].state == "dangling"
        && s.tasks.vals[id].owner == e.agent && !Mentioned(e.report, id))
  }

  lemma {:induction false} LastCreates(report: seq<Entry>, id: string)
    requires Mentioned(report, id) && !Final(LastStatus(report, id))
    ensures Creates(report, id)
  {
    var n := |report| - 1;
    ReportStep(report, id);
    if !Bears(report[n], id) {
      LastCreates(report[..n], id);
    }
  }

  lemma SyncTimers(cfg: Config, s: State, e: Event, now: real)
    requires e.SyncReport?
    ensures Step(cfg, s, e, now).graceTimers == if Heals(cfg, s, e) then s.graceTimers - {e.agent} else s.graceTimers
  {
  }

  /** What a report does to the state of one task, as far as dangling is concerned. */
  lemma SyncDangles(cfg: Config, s: State, e: Event, now: real, id: string)
    requires Inv(s) && e.SyncReport?
    ensures var s' := Step(cfg, s, e, now);
            && (IsDangling(s', id) <==> Literal(e, id) || (IsDangling(s, id) && !Mentioned(e.report, id)))
            && (IsDangling(s', id) ==>
                  s'.tasks.vals[id].owner == if id in s.tasks.vals then s.tasks.vals[id].owner else e.agent)
  {
    SyncMemoryExact(cfg.table, s.tasks, s.dispatched, s.board, e.agent, e.report, e.unreadable, id);
    if Literal(e, id) {
      LastCreates(e.report, id);
    }
  }

  lemma SyncStrays(cfg: Config, s: State, e: Event, now: real, id: string)
    requires Inv(s) && Covered(s) && e.SyncReport?
    ensures Uncovered(Step(cfg, s, e, now), id) <==> Strays(cfg, s, e, id)
  {
    assert !Uncovered(s, id);
    SyncDangles(cfg, s, e, now, id);
    SyncTimers(cfg, s, e, now);
  }

  lemma MessageStrays(cfg: Config, s: State, e: Event, now: real, id: string)
    requires Enabled(cfg, s, e, now) && Covered(s) && (e.Ack? || e.Progress? || e.Result?)
    ensures Uncovered(Step(cfg, s, e, now), id) <==> Strays(cfg, s, e, id)
  {
    assert !Uncovered(s, id);
    if e.id == "" {
      assert Step(cfg, s, e, now) == s;
    }
  }

  lemma OutcomeStrays(cfg: Config, s: State, e: Event, now: real, id: string)
    requires Enabled(cfg, s, e, now) && Covered(s) && (e.Complete? || e.Fail?)
    ensures !Uncovered(Step(cfg, s, e, now), id)
  {
    assert !Uncovered(s, id);
    if e.id == "" {
      assert Step(cfg, s, e, now) == s;
    }
  }

  lemma OtherStrays(cfg: Config, s: State, e: Event, now: real, id: string)
    requires Inv(s) && Enabled(cfg, s, e, now) && Covered(s)
    requires !(e.Ack? || e.Progress? || e.Complete? || e.Fail? || e.Result? || e.SyncReport?)
    ensures !Uncovered(Step(cfg, s, e, now), id)
  {
    var s' := Step(cfg, s, e, now);
    if IsDangling(s', id) {
      DanglingStep(cfg, s, e, now, id);
      StepKeeps(cfg, s, e, now);
      var owner := s.tasks.vals[id].owner;
      assert s'.tasks.vals[id].owner == owner;
      if IsDangling(s, id) {
        assert !Uncovered(s, id);
        GraceTimersStay(cfg, s, e, now, owner);
      } else {
        GraceStepLink(cfg, s, owner, now);
      }
    }
  }

  lemma StepStrays(cfg: Config, s: State, e: Event, now: real, id: string)
    requires Inv(s) && Enabled(cfg, s, e, now) && Covered(s)
    ensures Uncovered(Step(cfg, s, e, now), id) <==> Strays(cfg, s, e, id)
  {
    if e.SyncReport? {
      SyncStrays(cfg, s, e, now, id);
    } else if e.Ack? || e.Progress? || e.Result? {
      MessageStrays(cfg, s, e, now, id);
    } else if e.Complete? || e.Fail? {
      OutcomeStrays(cfg, s, e, now, id);
    } else {
      OtherStrays(cfg, s, e, now, id);
    }
  }

  ghost predicate NoneStrays(cfg: Config, s: State, e: Event) {
    forall id :: !Strays(cfg, s, e, id)
  }

  /** From a state in which every dangling task has its timer, a step leads to another such state
      exactly when it makes no task stray, which can be told before the step. */
  lemma CoveredStep(cfg: Config, s: State, e: Event, now: real)
    requires Inv(s) && Enabled(cfg, s, e, now) && Covered(s)
    ensures Covered(Step(cfg, s, e, now)) <==> NoneStrays(cfg, s, e)
  {
    var s' := Step(cfg, s, e, now);
    forall id
      ensures Uncovered(s', id) <==> Strays(cfg, s, e, id)
    {
      StepStrays(cfg, s, e, now, id);
    }
  }

  /** The chain of a run as far as coverage is concerned. */
  ghost predicate CoverChain(cfg: Config, tr: seq<Stamped>, ss: seq<State>) {
    && |ss| == |tr| + 1 && Covered(ss[0])
    && (forall i :: 0 <= i < |tr| && Covered(ss[i]) ==> (Covered(ss[i + 1]) <==> NoneStrays(cfg, ss[i], tr[i].event)))
  }

  lemma RunCoverChain(cfg: Config, tr: seq<Stamped>, ss: seq<State>)
    requires Run(cfg, tr, ss)
    ensures CoverChain(cfg, tr, ss)
  {
    forall i | 0 <= i < |tr| && Covered(ss[i])
      ensures Covered(ss[i + 1]) <==> NoneStrays(cfg, ss[i], tr[i].event)
    {
      RunInv(cfg, tr, ss, i);
      CoveredStep(cfg, ss[i], tr[i].event, tr[i].time);
    }
  }

  lemma {:induction false} CoveredUpTo(cfg: Config, tr: seq<Stamped>, ss: seq<State>, k: nat)
    requires CoverChain(cfg, tr, ss) && k <= |tr|
    ensures (forall i :: 0 <= i <= k ==> Covered(ss[i])) <==>
            forall i :: 0 <= i < k ==> NoneStrays(cfg, ss[i], tr[i].event)
  {
    if k > 0 {
      CoveredUpTo(cfg, tr, ss, k - 1);
      var e := tr[k - 1].event;
      assert Covered(ss[k - 1]) ==> (Covered(ss[k]) <==> NoneStrays(cfg, ss[k - 1], e));
    }
  }

  /** Over every run, each dangling task has at all times a grace timer that will fail it exactly
      when no step makes a task stray. */
  lemma RunCovered(cfg: Config, tr: seq<Stamped>, ss: seq<State>, k: nat)
    requires Run(cfg, tr, ss) && k <= |tr|
    ensures (forall i :: 0 <= i <= k ==> Covered(ss[i])) <==>
            forall i :: 0 <= i < k ==> NoneStrays(cfg, ss[i], tr[i].event)
  {
    RunCoverChain(cfg, tr, ss);
    CoveredUpTo(cfg, tr, ss, k);
  }

  lemma BoardAllNoneDangling(board: Board, dispatched: Dict<string>, ids: set<string>, status: string)
    requires NoneDangling(board)
    ensures NoneDangling(BoardAll(REPOSITORY_TRANSITIONS, board, dispatched, ids, status))
  {
    forall id | id in board {
      RepositoryTableNeverDangles(board, id, status, None);
    }
  }

  lemma RepositoryReconcile(board: Board, dispatched: Dict<string>, id: string, status: string, result: Option<string>)
    requires NoneDangling(board)
    ensures NoneDangling(Reconcile(REPOSITORY_TRANSITIONS, board, dispatched, id, status, result))
  {
    RepositoryTableNeverDangles(board, id, "running", None);
    RepositoryTableNeverDangles(board, id, "completed", result);
    RepositoryTableNeverDangles(board, id, "failed", None);
  }

  lemma RepositoryTimerStep(cfg: Config, s: State, e: Event, now: real)
    requires cfg.table == REPOSITORY_TRANSITIONS && Enabled(cfg, s, e, now) && NoneDangling(s.board)
    requires e.Dangle? || e.GraceFire? || e.TimeoutFire? || e.TimeoutSent?
    ensures NoneDangling(Step(cfg, s, e, now).board)
  {
    match e
    case Dangle(agent) => BoardAllNoneDangling(s.board, s.dispatched, ToDangle(s.tasks, agent), "dangling");
    case GraceFire(h) => BoardAllNoneDangling(s.board, s.dispatched, StillDangling(s.tasks, s.graces[h].key), "failed");
    case TimeoutFire(h, _) => RepositoryTableNeverDangles(s.board, s.timeouts[h].key, "failed", None);
    case TimeoutSent(h) => RepositoryTableNeverDangles(s.board, s.timeouts[h].key, "failed", None);
  }

  lemma RepositoryBoardStep(cfg: Config, s: State, e: Event, now: real)
    requires cfg.table == REPOSITORY_TRANSITIONS && Enabled(cfg, s, e, now) && NoneDangling(s.board)
    ensures NoneDangling(Step(cfg, s, e, now).board)
  {
    match e
    case Ack(_, id, _) => RepositoryReconcile(s.board, s.dispatched, id, "running", None);
    case Complete(_, id, result) => RepositoryReconcile(s.board, s.dispatched, id, "completed", result.Value());
    case Fail(_, id, _) => RepositoryReconcile(s.board, s.dispatched, id, "failed", None);
    case Result(_, id, status, result, _) =>
      RepositoryReconcile(s.board, s.dispatched, id, status.StateOr("completed"), result.Value());
    case SyncReport(agent, report, unreadable) => HealExact(cfg.table, s.board, s.dispatched, unreadable, report);
    case CallbackWrite(id, failed, result, error) =>
      RepositoryReconcile(s.board, s.dispatched, id, CallbackRecord(s.tasks.vals[id], failed, result, error).state,
                          result);
    case _ =>
      if e.Dangle? || e.GraceFire? || e.TimeoutFire? || e.TimeoutSent? {
        RepositoryTimerStep(cfg, s, e, now);
      }
  }

  lemma {:induction false} RepositoryBoard(cfg: Config, tr: seq<Stamped>, ss: seq<State>, k: nat)
    requires Run(cfg, tr, ss) && k <= |tr| && cfg.table == REPOSITORY_TRANSITIONS
    ensures NoneDangling(ss[k].board)
  {
    if k > 0 {
      RepositoryBoard(cfg, tr, ss, k - 1);
      RepositoryBoardStep(cfg, ss[k - 1], tr[k - 1].event, tr[k - 1].time);
    }
  }

  /** With the repository's transition table the board never shows "dangling", so no report ever
      heals a task or cancels a grace timer, and every dangling task keeps a timer to fail it
      exactly when no message itself makes a task of an agent without a timer dangle. */
  lemma RepositoryNeverHeals(cfg: Config, tr: seq<Stamped>, ss: seq<State>, k: nat)
    requires Run(cfg, tr, ss) && k <= |tr| && cfg.table == REPOSITORY_TRANSITIONS
    ensures NoneDangling(ss[k].board)
    ensures forall i :: 0 <= i < k ==> !Heals(cfg, ss[i], tr[i].event)
    ensures (forall i :: 0 <= i <= k ==> Covered(ss[i])) <==>
            forall i, id :: 0 <= i < k && Literal(tr[i].event, id) ==>
                            OwnerAfter(ss[i], tr[i].event, id) in ss[i].graceTimers
  {
    RepositoryBoard(cfg, tr, ss, k);
    forall i | 0 <= i < k
      ensures !Heals(cfg, ss[i], tr[i].event)
    {
      RepositoryBoard(cfg, tr, ss, i);
      if tr[i].event.SyncReport? {
        HealExact(cfg.table, ss[i].board, ss[i].dispatched, tr[i].event.unreadable, tr[i].event.report);
      }
    }
    RunCovered(cfg, tr, ss, k);
    forall i, id | 0 <= i < k
      ensures Strays(cfg, ss[i], tr[i].event, id) <==>
              Literal(tr[i].event, id) && OwnerAfter(ss[i], tr[i].event, id) !in ss[i].graceTimers
    {
    }
  }
}
