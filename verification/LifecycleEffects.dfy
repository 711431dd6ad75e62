/** What each event of the task protocol leaves behind, record by record, row by row and timer by
    timer, and what a finished task is reported as later on. */
module LifecycleEffects {
  import opened Common
  import opened TaskBoard
  import opened StateSync
  import opened TaskLifecycle
  import opened LifecycleRuns

  // ---- frames ---------------------------------------------------------------------

  ghost predicate RecordsSame(s: State, s': State, except: set<string>) {
    forall k :: k !in except ==>
                  && (k in s'.tasks.vals <==> k in s.tasks.vals)
                  && (k in s.tasks.vals ==> s'.tasks.vals[k] == s.tasks.vals[k])
  }

  /** Only the listed tasks that were dispatched from the board get the status, where the table
      admits it; a completed one also gets a non-empty result. */
  ghost predicate BoardGets(table: Transitions, s: State, s': State, ids: set<string>, status: string,
                            result: Option<string>) {
    && s'.board.Keys == s.board.Keys
    && forall k :: k in s.board ==>
                     s'.board[k] ==
                     if k in ids && k in s.dispatched.vals && (s.board[k].status, status) in table
                     then BoardTask(status, if status == "completed" && result.Some? && result.value != "" then result
                                            else s.board[k].result)
                     else s.board[k]
  }

  /** The timers of all other tasks are the same ones, in the same phase. */
  ghost predicate TimersSame(s: State, s': State, except: set<string>) {
    forall k :: k !in except ==>
                  && (k in s'.taskTimers <==> k in s.taskTimers)
                  && (k in s.taskTimers ==>
                        && s'.taskTimers[k] == s.taskTimers[k]
                        && (s.taskTimers[k] < |s.timeouts| ==>
                              s.taskTimers[k] < |s'.timeouts|
                              && s'.timeouts[s.taskTimers[k]] == s.timeouts[s.taskTimers[k]]))
  }

  ghost predicate Restarted(s': State, id: string, now: real) {
    id in s'.taskTimers && s'.taskTimers[id] < |s'.timeouts|
    && s'.timeouts[s'.taskTimers[id]] == Timer(id, now, Sleeping)
  }

  /** The task has no timer left, stored or running. */
  ghost predicate Stopped(s': State, id: string) {
    id !in s'.taskTimers && forall h :: 0 <= h < |s'.timeouts| && s'.timeouts[h].key == id ==> !s'.timeouts[h].Live()
  }

  /** Nothing but records, board and task timers has changed. */
  ghost predicate RestSame(s: State, s': State) {
    && s'.dispatched == s.dispatched && s'.graceTimers == s.graceTimers && s'.graces == s.graces
    && s'.inFlight == s.inFlight && s'.callbacks == s.callbacks
  }

  // ---- messages -------------------------------------------------------------------

  lemma StoppedBy(s: State, id: string)
    requires TimersKept(s.timeouts, s.taskTimers)
    ensures Stopped(CancelTimeout(s, id), id) && TimersSame(s, CancelTimeout(s, id), {id})
  {
  }

  lemma RestartedBy(s: State, id: string, now: real)
    requires TimersKept(s.timeouts, s.taskTimers) && id in s.tasks.vals
    ensures var s' := ScheduleTimeout(s, id, now);
            && Restarted(s', id, now) && TimersSame(s, s', {id})
            && s' == s.(timeouts := s'.timeouts, taskTimers := s'.taskTimers)
  {
    StoppedBy(s, id);
  }

  lemma ReconcileGets(table: Transitions, s: State, s': State, id: string, status: string, result: Option<string>)
    requires s'.board == Reconcile(table, s.board, s.dispatched, id, status, result)
    ensures status == "running" ==> BoardGets(table, s, s', {id}, "running", None)
    ensures status in {"completed", "success"} ==> BoardGets(table, s, s', {id}, "completed", result)
    ensures status in {"failed", "error"} ==> BoardGets(table, s, s', {id}, "failed", None)
    ensures status !in {"running", "completed", "success", "failed", "error"} ==> s'.board == s.board
  {
  }

  /** A message without an id changes nothing. */
  lemma NoIdEffect(cfg: Config, s: State, e: Event, now: real)
    requires (e.Ack? || e.Progress? || e.Complete? || e.Fail? || e.Result?) && e.id == ""
    ensures Step(cfg, s, e, now) == s
  {
  }

  lemma AckEffect(cfg: Config, s: State, agent: string, id: string, status: Given, now: real)
    requires Inv(s) && id != ""
    ensures var s' := Step(cfg, s, Ack(agent, id, status), now);
            && id in s'.tasks.vals
            && s'.tasks.vals[id] ==
               (if id in s.tasks.vals then s.tasks.vals[id] else Task(agent, "", None, None)).(
                 state := match status case Absent => "accepted" case Nothing => "" case Text(t) => t)
            && RecordsSame(s, s', {id}) && BoardGets(cfg.table, s, s', {id}, "running", None)
            && Restarted(s', id, now) && TimersSame(s, s', {id}) && RestSame(s, s')
  {
    var r := Record(s.tasks, agent, id).(state := status.StateOr("accepted"));
    var b := Reconcile(cfg.table, s.board, s.dispatched, id, "running", None);
    var s1 := s.(tasks := s.tasks.Put(id, r), board := b);
    RestartedBy(s1, id, now);
    ReconcileGets(cfg.table, s, s1, id, "running", None);
    assert Step(cfg, s, Ack(agent, id, status), now) == ScheduleTimeout(s1, id, now);
  }

  lemma ProgressEffect(cfg: Config, s: State, agent: string, id: string, status: Given, now: real)
    requires Inv(s) && id != ""
    ensures var s' := Step(cfg, s, Progress(agent, id, status), now);
            && id in s'.tasks.vals
            && s'.tasks.vals[id] ==
               (if id in s.tasks.vals then s.tasks.vals[id] else Task(agent, "", None, None)).(
                 state := match status case Absent => "working" case Nothing => "" case Text(t) => t)
            && RecordsSame(s, s', {id}) && s'.board == s.board
            && Restarted(s', id, now) && TimersSame(s, s', {id}) && RestSame(s, s')
  {
    var r := Record(s.tasks, agent, id).(state := status.StateOr("working"));
    var s1 := s.(tasks := s.tasks.Put(id, r));
    RestartedBy(s1, id, now);
    assert Step(cfg, s, Progress(agent, id, status), now) == ScheduleTimeout(s1, id, now);
  }

  lemma StoreEffect(cfg: Config, s: State, id: string, record: Task, status: string, result: Option<string>)
    requires Inv(s)
    ensures var s' := Store(cfg, s, id, record, status, result);
            && id in s'.tasks.vals && s'.tasks.vals[id] == record && RecordsSame(s, s', {id})
            && Stopped(s', id) && TimersSame(s, s', {id}) && RestSame(s, s')
            && s'.board == Reconcile(cfg.table, s.board, s.dispatched, id, status, result)
  {
    var b := Reconcile(cfg.table, s.board, s.dispatched, id, status, result);
    StoppedBy(s.(tasks := s.tasks.Put(id, record), board := b), id);
  }

  lemma CompleteEffect(cfg: Config, s: State, agent: string, id: string, output: Given, now: real)
    requires Inv(s) && id != ""
    ensures var s' := Step(cfg, s, Complete(agent, id, output), now);
            && id in s'.tasks.vals
            && s'.tasks.vals[id] ==
               Task(if id in s.tasks.vals then s.tasks.vals[id].owner else agent, "completed",
                    match output case Absent => Some("{}") case Nothing => None case Text(t) => Some(t), None)
            && RecordsSame(s, s', {id})
            && BoardGets(cfg.table, s, s', {id}, "completed", if output.Text? then Some(output.text) else None)
            && Stopped(s', id) && TimersSame(s, s', {id}) && RestSame(s, s')
  {
    var r := Record(s.tasks, agent, id).(state := "completed", result := output.ValueOr("{}"), error := None);
    StoreEffect(cfg, s, id, r, "completed", output.Value());
    ReconcileGets(cfg.table, s, CompleteStep(cfg, s, agent, id, output), id, "completed", output.Value());
  }

  lemma FailEffect(cfg: Config, s: State, agent: string, id: string, reason: Given, now: real)
    requires Inv(s) && id != ""
    ensures var s' := Step(cfg, s, Fail(agent, id, reason), now);
            && id in s'.tasks.vals
            && s'.tasks.vals[id] ==
               Task(if id in s.tasks.vals then s.tasks.vals[id].owner else agent, "failed",
                    if id in s.tasks.vals then s.tasks.vals[id].result else None,
                    match reason case Absent => Some("Unknown error") case Nothing => None case Text(t) => Some(t))
            && RecordsSame(s, s', {id}) && BoardGets(cfg.table, s, s', {id}, "failed", None)
            && Stopped(s', id) && TimersSame(s, s', {id}) && RestSame(s, s')
  {
    var r := Record(s.tasks, agent, id).(state := "failed", error := reason.ValueOr("Unknown error"));
    StoreEffect(cfg, s, id, r, "failed", None);
    ReconcileGets(cfg.table, s, FailStep(cfg, s, agent, id, reason), id, "failed", None);
  }

  lemma ResultEffect(cfg: Config, s: State, agent: string, id: string, status: Given, output: Given,
                     error: Option<string>, now: real)
    requires Inv(s) && id != ""
    ensures var s' := Step(cfg, s, Result(agent, id, status, output, error), now);
            var st := match status case Absent => "completed" case Nothing => "" case Text(t) => t;
            && id in s'.tasks.vals
            && s'.tasks.vals[id] ==
               Task(if id in s.tasks.vals then s.tasks.vals[id].owner else agent, st,
                    match output case Absent => Some("{}") case Nothing => None case Text(t) => Some(t), error)
            && RecordsSame(s, s', {id})
            && (st == "running" ==> BoardGets(cfg.table, s, s', {id}, "running", None))
            && (st in {"completed", "success"} ==>
                  BoardGets(cfg.table, s, s', {id}, "completed", if output.Text? then Some(output.text) else None))
            && (st in {"failed", "error"} ==> BoardGets(cfg.table, s, s', {id}, "failed", None))
            && (st !in {"running", "completed", "success", "failed", "error"} ==> s'.board == s.board)
            && Stopped(s', id) && TimersSame(s, s', {id}) && RestSame(s, s')
  {
    var st := status.StateOr("completed");
    var r := Record(s.tasks, agent, id).(state := st, result := output.ValueOr("{}"), error := error);
    StoreEffect(cfg, s, id, r, st, output.Value());
    ReconcileGets(cfg.table, s, ResultStep(cfg, s, agent, id, status, output, error), id, st, output.Value());
  }

  /** A reported status for the task: its last entry with an id and a status. */
  lemma SyncRecords(cfg: Config, s: State, agent: string, report: seq<Entry>, unreadable: set<string>, now: real,
                    id: string)
    requires Inv(s)
    ensures var s' := Step(cfg, s, SyncReport(agent, report, unreadable), now);
            var lost := && id !in s.tasks.vals && id in s.dispatched.vals && s.dispatched.vals[id] == agent
                        && id in s.board && id !in unreadable && s.board[id].status !in {"completed", "failed"};
            && (id in s'.tasks.vals <==> id in s.tasks.vals || lost || Creates(report, id))
            && (id in s'.tasks.vals ==>
                  s'.tasks.vals[id] ==
                  (if id in s.tasks.vals then s.tasks.vals[id] else Task(agent, "", None, None)).(
                    state := if Mentioned(report, id) then LastStatus(report, id)
                             else if lost then s.board[id].status
                             else s.tasks.vals[id].state))
  {
    SyncMemoryExact(cfg.table, s.tasks, s.dispatched, s.board, agent, report, unreadable, id);
  }

  /** The task is dangling on the board, and the report claims it is being worked on. */
  ghost predicate Recovers(s: State, report: seq<Entry>, unreadable: set<string>, id: string) {
    && id in s.board && s.board[id].status == "dangling" && id in s.dispatched.vals && id !in unreadable
    && exists x :: x in report && x.key == Id(id) && id != "" && x.status.Some?
                   && x.status.value in {"working", "running", "accepted"}
  }

  /** A report puts exactly the recovering tasks back to running on the board, if the table admits
      it, and then stops the agent's grace timer; no other timer and no other row changes. */
  lemma SyncBoard(cfg: Config, s: State, agent: string, report: seq<Entry>, unreadable: set<string>, now: real)
    requires Inv(s)
    ensures var s' := Step(cfg, s, SyncReport(agent, report, unreadable), now);
            var healing := ("dangling", "running") in cfg.table;
            && s'.board.Keys == s.board.Keys
            && (forall id :: id in s.board ==>
                  s'.board[id] == if healing && Recovers(s, report, unreadable, id)
                                  then s.board[id].(status := "running") else s.board[id])
            && s'.graceTimers == (if healing && exists id :: Recovers(s, report, unreadable, id)
                                  then s.graceTimers - {agent} else s.graceTimers)
            && s'.taskTimers == s.taskTimers && s'.timeouts == s.timeouts && s'.dispatched == s.dispatched
            && s'.inFlight == s.inFlight && s'.callbacks == s.callbacks
  {
    var s' := Step(cfg, s, SyncReport(agent, report, unreadable), now);
    assert s'.board == Heal(cfg.table, s.board, s.dispatched, unreadable, report);
    HealRecovers(cfg.table, s, report, unreadable);
    SyncTimers(cfg, s, SyncReport(agent, report, unreadable), now);
  }

  lemma HealRecovers(table: Transitions, s: State, report: seq<Entry>, unreadable: set<string>)
    ensures var healing, b := ("dangling", "running") in table, Heal(table, s.board, s.dispatched, unreadable, report);
            && b.Keys == s.board.Keys
            && (forall id :: id in s.board ==>
                  b[id] == if healing && Recovers(s, report, unreadable, id)
                           then s.board[id].(status := "running") else s.board[id])
            && (Healed(table, s.board, s.dispatched, unreadable, report) > 0 <==>
                healing && exists id :: Recovers(s, report, unreadable, id))
  {
    HealExact(table, s.board, s.dispatched, unreadable, report);
    forall id
      ensures Healable(s.board, s.dispatched, unreadable, report, id) <==> Recovers(s, report, unreadable, id)
    {
      RecoversExact(s, report, unreadable, id);
    }
  }

  lemma RecoversExact(s: State, report: seq<Entry>, unreadable: set<string>, id: string)
    ensures Healable(s.board, s.dispatched, unreadable, report, id) <==> Recovers(s, report, unreadable, id)
  {
    if x :| x in report && Bears(x, id) && Active(x.status.value) {
      assert x in report && x.key == Id(id) && x.status.value in {"working", "running", "accepted"};
    }
    if x :| x in report && x.key == Id(id) && id != "" && x.status.Some?
            && x.status.value in {"working", "running", "accepted"} {
      assert x in report && Bears(x, id) && Active(x.status.value);
    }
  }

  // ---- disconnects and timers -------------------------------------------------------

  /** The tasks that a disconnect concerns. */
  ghost predicate Unfinished(s: State, agent: string, id: string) {
    id in s.tasks.vals && s.tasks.vals[id].owner == agent
    && s.tasks.vals[id].state !in {"completed", "failed", "cancelled", "dangling"}
  }

  /** A disconnect dangles every unfinished task of the agent, in memory and on the board, and stops
      its timer; if there is one, the agent gets a fresh grace timer. */
  lemma DangleEffect(cfg: Config, s: State, agent: string, now: real)
    requires Inv(s)
    ensures var s' := Step(cfg, s, Dangle(agent), now);
            var ids := set id | id in s.tasks.vals && Unfinished(s, agent, id);
            && RecordsSame(s, s', ids) && TimersSame(s, s', ids) && BoardGets(cfg.table, s, s', ids, "dangling", None)
            && (forall id <- ids ::
                  && id in s'.tasks.vals && Stopped(s', id)
                  && s'.tasks.vals[id] ==
                     Task(agent, "dangling", s.tasks.vals[id].result, Some("agent_disconnected_grace")))
            && (if ids == {} then s' == s
                else && agent in s'.graceTimers && s'.graceTimers[agent] < |s'.graces|
                     && s'.graces[s'.graceTimers[agent]] == Timer(agent, now, Sleeping)
                     && s'.graceTimers - {agent} == s.graceTimers - {agent})
  {
    var ids := set id | id in s.tasks.vals && Unfinished(s, agent, id);
    assert ids == ToDangle(s.tasks, agent);
    if ids != {} {
      DangleAllEffect(cfg, s, ids);
      RestartGraceEffect(DangleAll(cfg, s, ids), agent, now);
    }
  }

  lemma DangleAllEffect(cfg: Config, s: State, ids: set<string>)
    requires Inv(s) && ids <= s.tasks.vals.Keys
    ensures var s' := DangleAll(cfg, s, ids);
            && RecordsSame(s, s', ids) && TimersSame(s, s', ids) && BoardGets(cfg.table, s, s', ids, "dangling", None)
            && s'.graceTimers == s.graceTimers && s'.graces == s.graces
            && (forall id <- ids ::
                  && id in s'.tasks.vals && Stopped(s', id)
                  && s'.tasks.vals[id] ==
                     s.tasks.vals[id].(state := "dangling", error := Some("agent_disconnected_grace")))
  {
    CancelTimeoutsKeep(s, ids, 0.0);
  }

  lemma RestartGraceEffect(s: State, agent: string, now: real)
    ensures var s' := RestartGrace(s, agent, now);
            && s' == s.(graceTimers := s'.graceTimers, graces := s'.graces)
            && agent in s'.graceTimers && s'.graceTimers[agent] < |s'.graces|
            && s'.graces[s'.graceTimers[agent]] == Timer(agent, now, Sleeping)
            && s'.graceTimers - {agent} == s.graceTimers - {agent}
  {
  }

  /** The end of a grace period fails every dangling task of the agent, in memory and on the board,
      and drops the agent's timer. */
  lemma GraceEffect(cfg: Config, s: State, handle: nat, now: real)
    requires Inv(s) && Enabled(cfg, s, GraceFire(handle), now)
    ensures var s', agent := Step(cfg, s, GraceFire(handle), now), s.graces[handle].key;
            var ids := set id | id in s.tasks.vals && s.tasks.vals[id].owner == agent
                && s.tasks.vals[id].state == "dangling";
            && RecordsSame(s, s', ids) && BoardGets(cfg.table, s, s', ids, "failed", None)
            && (forall id <- ids ::
                  && id in s'.tasks.vals
                  && s'.tasks.vals[id] ==
                     Task(agent, "failed", s.tasks.vals[id].result, Some("agent_disconnected_timeout")))
            && s'.graceTimers == s.graceTimers - {agent} && !s'.graces[handle].Live()
            && s'.taskTimers == s.taskTimers && s'.timeouts == s.timeouts
  {
  }

  lemma IdleTimeout(cfg: Config, s: State, handle: nat, connected: bool, now: real)
    requires Inv(s) && Enabled(cfg, s, TimeoutFire(handle, connected), now)
    requires var id := s.timeouts[handle].key;
             id !in s.tasks.vals || s.tasks.vals[id].state in {"completed", "failed", "cancelled"}
    ensures var s', id := Step(cfg, s, TimeoutFire(handle, connected), now), s.timeouts[handle].key;
            && s'.tasks == s.tasks && s'.board == s.board
            && Stopped(s', id) && TimersSame(s, s', {id}) && RestSame(s, s')
  {
  }

  lemma SendingTimeout(cfg: Config, s: State, handle: nat, now: real)
    requires Inv(s) && Enabled(cfg, s, TimeoutFire(handle, true), now)
    requires var id := s.timeouts[handle].key;
             id in s.tasks.vals && s.tasks.vals[id].state !in {"completed", "failed", "cancelled"}
    ensures var s', id := Step(cfg, s, TimeoutFire(handle, true), now), s.timeouts[handle].key;
            && id in s'.tasks.vals && RecordsSame(s, s', {id})
            && s'.tasks.vals[id] == s.tasks.vals[id].(state := "failed", error := Some("timeout"))
            && s'.board == s.board && s'.taskTimers == s.taskTimers && s'.timeouts[handle].phase.Sending?
            && TimersSame(s, s', {id}) && RestSame(s, s')
  {
  }

  /** A timeout fails its task, connected or not, unless it is unknown or already finished; without
      a connection the board write follows at once, with one after the cancel message. */
  lemma TimeoutEffect(cfg: Config, s: State, handle: nat, connected: bool, now: real)
    requires Inv(s) && Enabled(cfg, s, TimeoutFire(handle, connected), now)
    ensures var s', id := Step(cfg, s, TimeoutFire(handle, connected), now), s.timeouts[handle].key;
            var fails := id in s.tasks.vals && s.tasks.vals[id].state !in {"completed", "failed", "cancelled"};
            && RecordsSame(s, s', if fails then {id} else {})
            && (fails ==> id in s'.tasks.vals
                          && s'.tasks.vals[id] == s.tasks.vals[id].(state := "failed", error := Some("timeout")))
            && (if fails && !connected then BoardGets(cfg.table, s, s', {id}, "failed", None) else s'.board == s.board)
            && (if fails && connected then s'.taskTimers == s.taskTimers && s'.timeouts[handle].phase.Sending?
                else Stopped(s', id))
            && TimersSame(s, s', {id}) && RestSame(s, s')
  {
    var id := s.timeouts[handle].key;
    if id !in s.tasks.vals || s.tasks.vals[id].state in {"completed", "failed", "cancelled"} {
      IdleTimeout(cfg, s, handle, connected, now);
    } else if connected {
      SendingTimeout(cfg, s, handle, now);
    } else {
      var s1 := s.(tasks := s.tasks.Put(id, s.tasks.vals[id].(state := "failed", error := Some("timeout"))));
      TimeoutEndEffect(cfg, s1, handle);
      assert Step(cfg, s, TimeoutFire(handle, connected), now) == TimeoutEnd(cfg, s1, handle);
    }
  }

  lemma TimeoutEndEffect(cfg: Config, s: State, handle: nat)
    requires TimersKept(s.timeouts, s.taskTimers) && handle < |s.timeouts| && s.timeouts[handle].Live()
    ensures var s', id := TimeoutEnd(cfg, s, handle), s.timeouts[handle].key;
            && BoardGets(cfg.table, s, s', {id}, "failed", None) && s'.tasks == s.tasks
            && Stopped(s', id) && TimersSame(s, s', {id}) && RestSame(s, s')
  {
  }

  lemma TimeoutSentEffect(cfg: Config, s: State, handle: nat, now: real)
    requires Inv(s) && Enabled(cfg, s, TimeoutSent(handle), now)
    ensures var s', id := Step(cfg, s, TimeoutSent(handle), now), s.timeouts[handle].key;
            && BoardGets(cfg.table, s, s', {id}, "failed", None) && s'.tasks == s.tasks
            && Stopped(s', id) && TimersSame(s, s', {id}) && RestSame(s, s')
  {
    TimeoutEndEffect(cfg, s, handle);
  }

  // ---- dispatch and callbacks -------------------------------------------------------

  lemma DispatchEffect(cfg: Config, s: State, agent: string, id: string, now: real)
    requires Inv(s) && Enabled(cfg, s, DispatchBegin(agent, id), now)
    ensures var s' := Step(cfg, s, DispatchBegin(agent, id), now);
            && id in s'.tasks.vals && s'.tasks.vals[id] == Task(agent, "dispatched", None, None)
            && RecordsSame(s, s', {id}) && s'.inFlight == s.inFlight + {id}
            && s' == s.(tasks := s'.tasks, inFlight := s'.inFlight)
  {
  }

  /** The end of a send sets "forwarded", whatever the state was, and starts the timer. */
  lemma ForwardEffect(cfg: Config, s: State, id: string, now: real)
    requires Inv(s) && Enabled(cfg, s, DispatchSent(id), now)
    ensures var s' := Step(cfg, s, DispatchSent(id), now);
            && id in s'.tasks.vals && s'.tasks.vals[id] == s.tasks.vals[id].(state := "forwarded")
            && RecordsSame(s, s', {id}) && s'.board == s.board && s'.inFlight == s.inFlight - {id}
            && Restarted(s', id, now) && TimersSame(s, s', {id})
  {
    var r := s.tasks.vals[id].(state := "forwarded");
    var s1 := s.(tasks := s.tasks.Put(id, r), inFlight := s.inFlight - {id});
    RestartedBy(s1, id, now);
    assert Step(cfg, s, DispatchSent(id), now) == ScheduleTimeout(s1, id, now);
  }

  lemma RefuseEffect(cfg: Config, s: State, id: string, error: Option<string>, now: real)
    requires Inv(s) && Enabled(cfg, s, DispatchFailed(id, error), now)
    ensures var s' := Step(cfg, s, DispatchFailed(id, error), now);
            && id in s'.tasks.vals && s'.tasks.vals[id] == s.tasks.vals[id].(state := "failed", error := error)
            && RecordsSame(s, s', {id}) && s'.inFlight == s.inFlight - {id}
            && s' == s.(tasks := s'.tasks, inFlight := s'.inFlight)
  {
  }

  /** A callback with an error, or one that reports failure, fails the task; any other completes it.
      Both stop its timer and tell the board. */
  lemma CallbackEffect(cfg: Config, s: State, id: string, failed: bool, result: Option<string>, error: Option<string>,
                       now: real)
    requires Inv(s) && Enabled(cfg, s, CallbackWrite(id, failed, result, error), now)
    ensures var s' := Step(cfg, s, CallbackWrite(id, failed, result, error), now);
            && id in s'.tasks.vals
            && (if error.Some? && error.value != "" then
                  s'.tasks.vals[id] == s.tasks.vals[id].(state := "failed", error := error)
                else if failed then
                  s'.tasks.vals[id] == s.tasks.vals[id].(state := "failed", error := Some("Callback reported failure"))
                else s'.tasks.vals[id] == s.tasks.vals[id].(state := "completed", result := result))
            && BoardGets(cfg.table, s, s', {id},
                         if failed || (error.Some? && error.value != "") then "failed" else "completed", result)
            && RecordsSame(s, s', {id}) && Stopped(s', id) && TimersSame(s, s', {id}) && RestSame(s, s')
  {
    var r := CallbackRecord(s.tasks.vals[id], failed, result, error);
    StoreEffect(cfg, s, id, r, r.state, result);
    ReconcileGets(cfg.table, s, CallbackWriteStep(cfg, s, id, failed, result, error), id, r.state, result);
  }

  lemma CheckEffect(cfg: Config, s: State, id: string, now: real)
    ensures Enabled(cfg, s, CallbackCheck(id), now) <==>
            id in s.tasks.vals && s.tasks.vals[id].state !in {"completed", "failed", "cancelled"}
    ensures Enabled(cfg, s, CallbackCheck(id), now) ==>
              Step(cfg, s, CallbackCheck(id), now) == s.(callbacks := s.callbacks + {id})
  {
  }

  lemma BoardEffect(cfg: Config, s: State, id: string, agent: string, row: BoardTask, now: real)
    ensures var s' := Step(cfg, s, BoardDispatch(id, agent), now);
            && id in s'.dispatched.vals && s'.dispatched.vals[id] == agent && s' == s.(dispatched := s'.dispatched)
            && (forall k :: k != id ==> (k in s'.dispatched.vals <==> k in s.dispatched.vals))
            && (forall k :: k != id && k in s.dispatched.vals ==> s'.dispatched.vals[k] == s.dispatched.vals[k])
    ensures row.status != "dangling" ==>
              Step(cfg, s, BoardWrite(id, row), now) == s.(board := s.board[id := row])
  {
  }

  /** A sleeping timer is due exactly when its delay has passed since it was started. */
  lemma DueExactly(cfg: Config, s: State, handle: nat, connected: bool, now: real)
    ensures handle < |s.graces| && s.graces[handle].phase == Sleeping ==>
              (Enabled(cfg, s, GraceFire(handle), now) <==> now >= s.graces[handle].start + cfg.grace)
    ensures handle < |s.timeouts| && s.timeouts[handle].phase == Sleeping ==>
              (Enabled(cfg, s, TimeoutFire(handle, connected), now) <==>
               now >= s.timeouts[handle].start + cfg.taskTimeout)
    ensures handle < |s.timeouts| ==>
              (Enabled(cfg, s, TimeoutSent(handle), now) <==> s.timeouts[handle].phase == Sending)
  {
  }

  // ---- over runs --------------------------------------------------------------------

  /** Over every run a timeout changes a record exactly when it is the one of its task, known and not
      finished, whether the agent is connected or not; then the task has failed with "timeout". */
  lemma TimeoutExactly(cfg: Config, tr: seq<Stamped>, ss: seq<State>, j: nat, id: string)
    requires Run(cfg, tr, ss) && j < |tr| && tr[j].event.TimeoutFire? && id in ss[j].tasks.vals
    ensures id in ss[j + 1].tasks.vals
    ensures ss[j + 1].tasks.vals[id] != ss[j].tasks.vals[id] <==>
            && id == ss[j].timeouts[tr[j].event.handle].key
            && ss[j].tasks.vals[id].state !in {"completed", "failed", "cancelled"}
    ensures ss[j + 1].tasks.vals[id] != ss[j].tasks.vals[id] ==>
              ss[j + 1].tasks.vals[id] == ss[j].tasks.vals[id].(state := "failed", error := Some("timeout"))
  {
    RunInv(cfg, tr, ss, j);
    TimeoutEffect(cfg, ss[j], tr[j].event.handle, tr[j].event.connected, tr[j].time);
  }

  /** The event can change the finished record of the task. */
  predicate Concerns(e: Event, id: string) {
    match e
    case Ack(_, i, _) => i == id
    case Progress(_, i, _) => i == id
    case Complete(_, i, _) => i == id
    case Fail(_, i, _) => i == id
    case Result(_, i, _, _, _) => i == id
    case SyncReport(_, report, _) => exists x :: x in report && x.key == Id(id)
    case DispatchSent(i) => i == id
    case DispatchFailed(i, _) => i == id
    case CallbackWrite(i, _, _, _) => i == id
    case _ => false
  }

  ghost predicate FinishedAs(s: State, id: string, record: Task) {
    id in s.tasks.vals && s.tasks.vals[id] == record && record.state in {"completed", "failed", "cancelled"}
  }

  lemma RecordStill(cfg: Config, s: State, e: Event, now: real, id: string, record: Task)
    requires Inv(s) && Enabled(cfg, s, e, now) && FinishedAs(s, id, record) && !Concerns(e, id)
    ensures FinishedAs(Step(cfg, s, e, now), id, record)
  {
    if e.SyncReport? {
      SyncMemoryExact(cfg.table, s.tasks, s.dispatched, s.board, e.agent, e.report, e.unreadable, id);
    } else if e.Dangle? || e.GraceFire? || e.TimeoutFire? || e.TimeoutSent? {
      TerminalUntouched(cfg, s, e, now, id);
    } else if e.Ack? || e.Progress? || e.Complete? || e.Fail? || e.Result? {
      MessageStill(cfg, s, e, now, id);
    }
  }

  lemma MessageStill(cfg: Config, s: State, e: Event, now: real, id: string)
    requires Enabled(cfg, s, e, now) && id in s.tasks.vals && !Concerns(e, id)
    requires e.Ack? || e.Progress? || e.Complete? || e.Fail? || e.Result?
    ensures var s' := Step(cfg, s, e, now); id in s'.tasks.vals && s'.tasks.vals[id] == s.tasks.vals[id]
  {
    if e.id == "" {
      NoIdEffect(cfg, s, e, now);
    }
  }

  lemma {:induction false} RunStill(cfg: Config, tr: seq<Stamped>, ss: seq<State>, i: nat, j: nat, id: string,
                                    record: Task)
    requires Run(cfg, tr, ss) && i <= j <= |tr| && FinishedAs(ss[i], id, record)
    requires forall k :: i <= k < j ==> !Concerns(tr[k].event, id)
    ensures FinishedAs(ss[j], id, record)
    decreases j - i
  {
    if i < j {
      RunInv(cfg, tr, ss, i);
      RecordStill(cfg, ss[i], tr[i].event, tr[i].time, id, record);
      RunStill(cfg, tr, ss, i + 1, j, id, record);
    }
  }

  /** The report names the task nowhere and does not make the final log loop raise. */
  ghost predicate Silent(report: seq<Entry>, id: string) {
    forall x <- report ::
      x.key != Id(id)
      && !(x.key == Missing && x.status.Some? && x.status.value in {"completed", "success", "done"})
  }

  lemma FinishedIsReported(cfg: Config, tr: seq<Stamped>, ss: seq<State>, i: nat, j: nat, id: string, record: Task)
    requires Run(cfg, tr, ss) && i <= j < |tr| && FinishedAs(ss[i], id, record)
             && record.state in {"completed", "failed"}
    requires forall k :: i <= k < j ==> !Concerns(tr[k].event, id)
    requires tr[j].event.SyncReport? && tr[j].event.agent == record.owner && Silent(tr[j].event.report, id)
    ensures var e := tr[j].event;
            var reply := Sync(cfg.table, ss[j].tasks, ss[j].dispatched, ss[j].board, e.agent, e.report,
                              e.unreadable).reply;
            && reply.Some? && Orphan(id, record.state, record.result, record.error) in reply.value
            && forall o <- reply.value :: o.id == id ==> o == Orphan(id, record.state, record.result, record.error)
  {
    var e := tr[j].event;
    RunInv(cfg, tr, ss, j);
    RunStill(cfg, tr, ss, i, j, id, record);
    SyncReplyExact(cfg.table, ss[j].tasks, ss[j].dispatched, ss[j].board, e.agent, e.report, e.unreadable);
    SyncMemoryExact(cfg.table, ss[j].tasks, ss[j].dispatched, ss[j].board, e.agent, e.report, e.unreadable, id);
  }

  /** Over every run, a completed task that nothing has concerned since is reported to its owner, by
      the reply to any later report that omits it, as completed with the output that was sent. */
  lemma CompletedIsReported(cfg: Config, tr: seq<Stamped>, ss: seq<State>, i: nat, j: nat, output: Given)
    requires Run(cfg, tr, ss) && i < j < |tr| && tr[i].event.Complete? && tr[i].event.output == output
             && tr[i].event.id != ""
    requires forall k :: i < k < j ==> !Concerns(tr[k].event, tr[i].event.id)
    requires tr[j].event.SyncReport? && Silent(tr[j].event.report, tr[i].event.id)
    requires tr[j].event.agent == if tr[i].event.id in ss[i].tasks.vals then ss[i].tasks.vals[tr[i].event.id].owner
                                  else tr[i].event.agent
    ensures var e, id := tr[j].event, tr[i].event.id;
            var reply := Sync(cfg.table, ss[j].tasks, ss[j].dispatched, ss[j].board, e.agent, e.report,
                              e.unreadable).reply;
            var result := match output case Absent => Some("{}") case Nothing => None case Text(t) => Some(t);
            && reply.Some? && Orphan(id, "completed", result, None) in reply.value
            && forall o <- reply.value :: o.id == id ==> o == Orphan(id, "completed", result, None)
  {
    var e := tr[i].event;
    RunInv(cfg, tr, ss, i);
    CompleteEffect(cfg, ss[i], e.agent, e.id, output, tr[i].time);
    FinishedIsReported(cfg, tr, ss, i + 1, j, e.id, ss[i + 1].tasks.vals[e.id]);
  }
}
