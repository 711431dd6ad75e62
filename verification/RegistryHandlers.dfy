/** The handler object of server.py: its dictionaries are changed in place, one atomic step per
    method, and every method is tied to the step of the same name in TaskLifecycle. */
module RegistryHandlers {
  import opened Common
  import opened TaskBoard
  import opened StateSync
  import opened TaskLifecycle

  function Elements(s: seq<string>): set<string> {
    set x | x in s
  }

  lemma RewriteOne(tasks: Dict<Task>, ids: set<string>, id: string, state: string, error: string)
    requires id in tasks.vals && id !in ids
    ensures Rewrite(tasks, ids + {id}, state, error) ==
            Rewrite(tasks, ids, state, error).Put(id, tasks.vals[id].(state := state, error := Some(error)))
  {
  }

  lemma BoardAllOne(table: Transitions, board: Board, dispatched: Dict<string>, ids: set<string>, id: string,
                    status: string)
    requires id !in ids
    ensures BoardAll(table, board, dispatched, ids + {id}, status) ==
            var b := BoardAll(table, board, dispatched, ids, status);
            if id in dispatched.vals then Update(table, b, id, status, None) else b
  {
    var b := BoardAll(table, board, dispatched, ids, status);
    assert id in b ==> b[id] == board[id];
  }

  /** The memory half of a disconnect: the given tasks are dangling and their timers stopped. */
  function Marked(s: State, ids: set<string>): State {
    s.(tasks := Rewrite(s.tasks, ids, "dangling", "agent_disconnected_grace"),
       timeouts := CancelTimeouts(s.timeouts, s.taskTimers, ids),
       taskTimers := s.taskTimers - ids)
  }

  lemma CancelTimeoutsOne(timeouts: seq<Timer>, taskTimers: map<string, nat>, ids: set<string>, id: string)
    requires TimersKept(timeouts, taskTimers) && id !in ids
    ensures CancelTimeouts(timeouts, taskTimers, ids + {id}) ==
            var t := CancelTimeouts(timeouts, taskTimers, ids);
            if id in taskTimers - ids then Mark(t, taskTimers[id], Cancelled) else t
  {
  }

  lemma MarkedOne(s: State, ids: set<string>, id: string)
    requires TimersKept(s.timeouts, s.taskTimers) && id in s.tasks.vals && id !in ids
    ensures var m := Marked(s, ids);
            var task := m.tasks.vals[id].(state := "dangling", error := Some("agent_disconnected_grace"));
            && m.tasks.vals[id] == s.tasks.vals[id]
            && Marked(s, ids + {id}) == CancelTimeout(m.(tasks := m.tasks.Put(id, task)), id)
  {
    RewriteOne(s.tasks, ids, id, "dangling", "agent_disconnected_grace");
    CancelTimeoutsOne(s.timeouts, s.taskTimers, ids, id);
    assert s.taskTimers - (ids + {id}) == s.taskTimers - ids - {id};
  }

  lemma MarkedNone(s: State)
    ensures Marked(s, {}) == s
  {
    assert CancelTimeouts(s.timeouts, s.taskTimers, {}) == s.timeouts;
    assert Rewrite(s.tasks, {}, "dangling", "agent_disconnected_grace").vals == s.tasks.vals;
  }

  lemma DangleNone(cfg: Config, s: State)
    ensures DangleAll(cfg, s, {}) == s
  {
    MarkedNone(s);
    assert BoardAll(cfg.table, s.board, s.dispatched, {}, "dangling") == s.board;
  }

  /** The chosen keys, in the order of the dictionary. */
  function Picked(keys: seq<string>, chosen: set<string>): seq<string> {
    if keys == [] then []
    else
      var n := |keys| - 1;
      Picked(keys[..n], chosen) + if keys[n] in chosen then [keys[n]] else []
  }

  lemma {:induction false} PickedExact(keys: seq<string>, chosen: set<string>)
    requires Distinct(keys)
    ensures forall id :: id in Picked(keys, chosen) <==> id in keys && id in chosen
    ensures Distinct(Picked(keys, chosen))
  {
    if keys != [] {
      var n := |keys| - 1;
      assert keys == keys[..n] + [keys[n]];
      PickedExact(keys[..n], chosen);
    }
  }

  lemma PickedAll(keys: seq<string>, chosen: set<string>)
    requires Distinct(keys) && forall id <- chosen :: id in keys
    ensures Elements(Picked(keys, chosen)) == chosen && Distinct(Picked(keys, chosen))
  {
    PickedExact(keys, chosen);
  }

  lemma PickedStep(keys: seq<string>, i: nat, chosen: set<string>)
    requires Distinct(keys) && i < |keys|
    ensures var ids := Picked(keys[..i], chosen);
            && keys[i] !in Elements(ids)
            && Picked(keys[..i + 1], chosen) == (if keys[i] in chosen then ids + [keys[i]] else ids)
            && Elements(ids + [keys[i]]) == Elements(ids) + {keys[i]}
  {
    assert keys[..i + 1][..i] == keys[..i];
    PickedExact(keys[..i], chosen);
  }

  /** What one round of the scan of a disconnect adds. */
  lemma ScanStep(s: State, keys: seq<string>, i: nat, chosen: set<string>)
    requires s.tasks.Valid() && TimersKept(s.timeouts, s.taskTimers) && keys == s.tasks.keys && i < |keys|
    ensures var ids := Picked(keys[..i], chosen);
            var m, id := Marked(s, Elements(ids)), keys[i];
            && id in s.tasks.vals && id in m.tasks.vals && m.tasks.vals[id] == s.tasks.vals[id]
            && Picked(keys[..i + 1], chosen) == (if id in chosen then ids + [id] else ids)
            && Marked(s, Elements(ids + [id])) ==
               var task := m.tasks.vals[id].(state := "dangling", error := Some("agent_disconnected_grace"));
               CancelTimeout(m.(tasks := m.tasks.Put(id, task)), id)
  {
    PickedStep(keys, i, chosen);
    MarkedOne(s, Elements(Picked(keys[..i], chosen)), keys[i]);
  }

  /** What one round of the scan of a grace expiry adds. */
  lemma FailStepOne(tasks: Dict<Task>, i: nat, chosen: set<string>)
    requires tasks.Valid() && i < |tasks.keys|
    ensures var ids, id := Picked(tasks.keys[..i], chosen), tasks.keys[i];
            var done := Rewrite(tasks, Elements(ids), "failed", "agent_disconnected_timeout");
            && id in tasks.vals && id in done.vals && done.vals[id] == tasks.vals[id]
            && Picked(tasks.keys[..i + 1], chosen) == (if id in chosen then ids + [id] else ids)
            && Rewrite(tasks, Elements(ids + [id]), "failed", "agent_disconnected_timeout") ==
               done.Put(id, tasks.vals[id].(state := "failed", error := Some("agent_disconnected_timeout")))
  {
    PickedStep(tasks.keys, i, chosen);
    RewriteOne(tasks, Elements(Picked(tasks.keys[..i], chosen)), tasks.keys[i], "failed", "agent_disconnected_timeout");
  }

  lemma RewriteNone(tasks: Dict<Task>, state: string, error: string)
    ensures Rewrite(tasks, {}, state, error) == tasks
  {
    assert Rewrite(tasks, {}, state, error).vals == tasks.vals;
  }

  class RegistryHandler {
    const cfg: Config
    var tasks: Dict<Task>
    var dispatched: Dict<string>
    var board: Board
    var taskTimers: map<string, nat>
    var danglingTimers: map<string, nat>
    var timeouts: seq<Timer>
    var graces: seq<Timer>
    var inFlight: set<string>
    var callbacks: set<string>

    function View(): State
      reads this
    {
      State(tasks, dispatched, board, taskTimers, danglingTimers, timeouts, graces, inFlight, callbacks)
    }

    ghost predicate Valid()
      reads this
    {
      Inv(View())
    }

    constructor (cfg: Config, board: Board, dispatched: Dict<string>)
      requires dispatched.Valid() && NoneDangling(board)
      ensures Valid() && Init(View()) && this.cfg == cfg
    {
      this.cfg := cfg;
      this.board, this.dispatched := board, dispatched;
      tasks, taskTimers, danglingTimers, timeouts, graces := Dict([], map[]), map[], map[], [], [];
      inFlight, callbacks := {}, {};
    }

    // ---- timers -------------------------------------------------------------------

    method CancelTaskTimeout(id: string)
      modifies this`taskTimers, this`timeouts
      ensures View() == CancelTimeout(old(View()), id)
    {
      if id in taskTimers {
        var timer := taskTimers[id];
        taskTimers := taskTimers - {id};
        if timer < |timeouts| && timeouts[timer].Live() {
          timeouts := timeouts[timer := timeouts[timer].(phase := Cancelled)];
        }
      }
    }

    method CancelDanglingTimer(agent: string)
      modifies this`danglingTimers, this`graces
      ensures View() == CancelGrace(old(View()), agent)
    {
      if agent in danglingTimers {
        var timer := danglingTimers[agent];
        danglingTimers := danglingTimers - {agent};
        if timer < |graces| && graces[timer].Live() {
          graces := graces[timer := graces[timer].(phase := Cancelled)];
        }
      }
    }

    method ScheduleTaskTimeout(id: string, now: real)
      modifies this`taskTimers, this`timeouts
      ensures View() == ScheduleTimeout(old(View()), id, now)
    {
      CancelTaskTimeout(id);
      if id in tasks.vals {
        taskTimers := taskTimers[id := |timeouts|];
        timeouts := timeouts + [Timer(id, now, Sleeping)];
      }
    }

    // ---- agent messages -----------------------------------------------------------

    method HandleTaskAck(agent: string, id: string, status: Given, now: real)
      requires Valid()
      modifies this
      ensures Valid() && View() == AckStep(cfg, old(View()), agent, id, status, now)
    {
      AckKeeps(cfg, View(), agent, id, status, now);
      if id == "" {
        return;
      }
      if id in tasks.vals {
        tasks := tasks.Put(id, tasks.vals[id].(state := status.StateOr("accepted")));
      } else {
        tasks := tasks.Put(id, Task(agent, status.StateOr("accepted"), None, None));
      }
      board := Reconcile(cfg.table, board, dispatched, id, "running", None);
      ScheduleTaskTimeout(id, now);
    }

    method HandleTaskProgress(agent: string, id: string, status: Given, now: real)
      requires Valid()
      modifies this
      ensures Valid() && View() == ProgressStep(old(View()), agent, id, status, now)
    {
      ProgressKeeps(View(), agent, id, status, now);
      if id == "" {
        return;
      }
      if id in tasks.vals {
        tasks := tasks.Put(id, tasks.vals[id].(state := status.StateOr("working")));
      } else {
        tasks := tasks.Put(id, Task(agent, status.StateOr("working"), None, None));
      }
      ScheduleTaskTimeout(id, now);
    }

    method HandleTaskComplete(agent: string, id: string, result: Given, now: real)
      requires Valid()
      modifies this
      ensures Valid() && View() == CompleteStep(cfg, old(View()), agent, id, result)
    {
      StepKeeps(cfg, View(), Complete(agent, id, result), now);
      if id == "" {
        return;
      }
      if id in tasks.vals {
        tasks := tasks.Put(id, tasks.vals[id].(state := "completed", result := result.ValueOr("{}"), error := None));
      } else {
        tasks := tasks.Put(id, Task(agent, "completed", result.ValueOr("{}"), None));
      }
      board := Reconcile(cfg.table, board, dispatched, id, "completed", result.Value());
      CancelTaskTimeout(id);
    }

    method HandleTaskFail(agent: string, id: string, error: Given, now: real)
      requires Valid()
      modifies this
      ensures Valid() && View() == FailStep(cfg, old(View()), agent, id, error)
    {
      StepKeeps(cfg, View(), Fail(agent, id, error), now);
      if id == "" {
        return;
      }
      var detail := error.ValueOr("Unknown error");
      if id in tasks.vals {
        tasks := tasks.Put(id, tasks.vals[id].(state := "failed", error := detail));
      } else {
        tasks := tasks.Put(id, Task(agent, "failed", None, detail));
      }
      board := Reconcile(cfg.table, board, dispatched, id, "failed", None);
      CancelTaskTimeout(id);
    }

    method HandleTaskResult(agent: string, id: string, status: Given, result: Given, error: Option<string>, now: real)
      requires Valid()
      modifies this
      ensures Valid() && View() == ResultStep(cfg, old(View()), agent, id, status, result, error)
    {
      StepKeeps(cfg, View(), Result(agent, id, status, result, error), now);
      if id == "" {
        return;
      }
      var st := status.StateOr("completed");
      if id in tasks.vals {
        tasks := tasks.Put(id, tasks.vals[id].(state := st, result := result.ValueOr("{}"), error := error));
      } else {
        tasks := tasks.Put(id, Task(agent, st, result.ValueOr("{}"), error));
      }
      board := Reconcile(cfg.table, board, dispatched, id, st, result.Value());
      CancelTaskTimeout(id);
    }

    // ---- disconnects --------------------------------------------------------------

    method DangleTask(id: string)
      requires id in tasks.vals
      modifies this`tasks, this`taskTimers, this`timeouts
      ensures var task := old(tasks).vals[id].(state := "dangling", error := Some("agent_disconnected_grace"));
              View() == CancelTimeout(old(View()).(tasks := old(tasks).Put(id, task)), id)
    {
      tasks := tasks.Put(id, tasks.vals[id].(state := "dangling", error := Some("agent_disconnected_grace")));
      CancelTaskTimeout(id);
    }

    /** The scan of `_dangle_agent_tasks`: mark the agent's unfinished tasks and stop their timers. */
    method MarkDangling(agent: string) returns (dangled: seq<string>)
      requires tasks.Valid() && TimersKept(timeouts, taskTimers)
      modifies this`tasks, this`taskTimers, this`timeouts
      ensures Elements(dangled) == ToDangle(old(tasks), agent) && Distinct(dangled)
      ensures View() == Marked(old(View()), Elements(dangled))
    {
      dangled := [];
      ghost var before, chosen := View(), ToDangle(tasks, agent);
      var keys := tasks.keys;
      MarkedNone(before);
      for i := 0 to |keys|
        invariant dangled == Picked(keys[..i], chosen)
        invariant View() == Marked(before, Elements(dangled))
      {
        var id := keys[i];
        ScanStep(before, keys, i, chosen);
        var task := tasks.vals[id];
        if task.owner == agent && task.state !in {"completed", "failed", "cancelled", "dangling"} {
          DangleTask(id);
          dangled := dangled + [id];
        }
      }
      assert keys[..|keys|] == keys;
      PickedAll(keys, chosen);
    }

    /** Write a status for each listed task that was dispatched from the board. */
    method UpdateBoard(ids: seq<string>, status: string)
      requires Distinct(ids)
      modifies this`board
      ensures board == BoardAll(cfg.table, old(board), dispatched, Elements(ids), status)
    {
      ghost var before := board;
      for i := 0 to |ids|
        invariant board == BoardAll(cfg.table, before, dispatched, Elements(ids[..i]), status)
      {
        assert ids[..i + 1] == ids[..i] + [ids[i]];
        assert Elements(ids[..i + 1]) == Elements(ids[..i]) + {ids[i]};
        BoardAllOne(cfg.table, before, dispatched, Elements(ids[..i]), ids[i], status);
        if ids[i] in dispatched.vals {
          board := Update(cfg.table, board, ids[i], status, None);
        }
      }
      assert ids[..|ids|] == ids;
    }

    /** The loops over the tasks and the board. */
    method DangleTasks(agent: string) returns (dangled: seq<string>)
      requires tasks.Valid() && TimersKept(timeouts, taskTimers)
      modifies this`tasks, this`taskTimers, this`timeouts, this`board
      ensures View() == DangleAll(cfg, old(View()), ToDangle(old(tasks), agent))
      ensures dangled == [] <==> ToDangle(old(tasks), agent) == {}
    {
      ghost var ids := ToDangle(tasks, agent);
      dangled := MarkDangling(agent);
      assert dangled != [] ==> dangled[0] in ids;
      UpdateBoard(dangled, "dangling");
    }

    method RestartGraceTimer(agent: string, now: real)
      modifies this`danglingTimers, this`graces
      ensures View() == RestartGrace(old(View()), agent, now)
    {
      CancelDanglingTimer(agent);
      danglingTimers := danglingTimers[agent := |graces|];
      graces := graces + [Timer(agent, now, Sleeping)];
    }

    method DangleAgentTasks(agent: string, now: real)
      requires Valid()
      modifies this
      ensures Valid() && View() == DangleStep(cfg, old(View()), agent, now)
    {
      DangleKeeps(cfg, View(), agent, now);
      DangleNone(cfg, View());
      var dangled := DangleTasks(agent);
      if dangled == [] {
        return;
      }
      RestartGraceTimer(agent, now);
    }

    /** The scan of `_dangle_timeout`. */
    method FailDangling(agent: string) returns (failed: seq<string>)
      requires tasks.Valid()
      modifies this`tasks
      ensures Elements(failed) == StillDangling(old(tasks), agent) && Distinct(failed)
      ensures tasks == Rewrite(old(tasks), Elements(failed), "failed", "agent_disconnected_timeout")
    {
      failed := [];
      ghost var before, chosen := tasks, StillDangling(tasks, agent);
      var keys := tasks.keys;
      RewriteNone(before, "failed", "agent_disconnected_timeout");
      for i := 0 to |keys|
        invariant failed == Picked(keys[..i], chosen)
        invariant tasks == Rewrite(before, Elements(failed), "failed", "agent_disconnected_timeout")
      {
        var id := keys[i];
        FailStepOne(before, i, chosen);
        var task := tasks.vals[id];
        if task.owner == agent && task.state == "dangling" {
          tasks := tasks.Put(id, task.(state := "failed", error := Some("agent_disconnected_timeout")));
          failed := failed + [id];
        }
      }
      assert keys[..|keys|] == keys;
      PickedAll(keys, chosen);
    }

    /** `_dangle_timeout` once its sleep is over. */
    method DangleTimeout(timer: nat, now: real)
      requires Valid() && Enabled(cfg, View(), GraceFire(timer), now)
      modifies this
      ensures Valid() && View() == GraceStep(cfg, old(View()), timer)
    {
      GraceKeeps(cfg, View(), timer, now);
      var agent := graces[timer].key;
      var failed := FailDangling(agent);
      UpdateBoard(failed, "failed");
      danglingTimers := danglingTimers - {agent};
      graces := graces[timer := graces[timer].(phase := Done)];
    }

    // ---- task timeouts ------------------------------------------------------------

    /** `_timeout_worker` from the end of its sleep to the send of its cancel message, or to its
        end when the agent is not connected. */
    method TimeoutWorker(timer: nat, connected: bool, now: real)
      requires Valid() && Enabled(cfg, View(), TimeoutFire(timer, connected), now)
      modifies this
      ensures Valid() && View() == TimeoutStep(cfg, old(View()), timer, connected)
    {
      TimeoutKeeps(cfg, View(), timer, connected, now);
      var id := timeouts[timer].key;
      if id !in tasks.vals || tasks.vals[id].state in {"completed", "failed", "cancelled"} {
        taskTimers := taskTimers - {id};
        timeouts := timeouts[timer := timeouts[timer].(phase := Done)];
        return;
      }
      tasks := tasks.Put(id, tasks.vals[id].(state := "failed", error := Some("timeout")));
      if connected {
        timeouts := timeouts[timer := timeouts[timer].(phase := Sending)];
      } else {
        FinishTimeout(timer);
      }
    }

    /** The rest of `_timeout_worker`, after the cancel message. */
    method FinishTimeout(timer: nat)
      requires timer < |timeouts| && timeouts[timer].Live()
      modifies this
      ensures View() == TimeoutEnd(cfg, old(View()), timer)
    {
      var id := timeouts[timer].key;
      if id in dispatched.vals {
        board := Update(cfg.table, board, id, "failed", None);
      }
      taskTimers := taskTimers - {id};
      timeouts := timeouts[timer := timeouts[timer].(phase := Done)];
    }

    // ---- reconnects ---------------------------------------------------------------

    /** Board tasks dispatched to the agent, as far as the store can be read. */
    method QueryBoard(agent: string, unreadable: set<string>) returns (ids: seq<string>)
      ensures ids == BoardView(dispatched.keys, dispatched, board, agent, unreadable)
      ensures forall id <- ids :: id in board
    {
      BoardViewExact(dispatched.keys, dispatched, board, agent, unreadable);
      ids := [];
      var keys := dispatched.keys;
      for i := 0 to |keys|
        invariant ids == BoardView(keys[..i], dispatched, board, agent, unreadable)
      {
        assert keys[..i + 1][..i] == keys[..i];
        if keys[i] in dispatched.vals && dispatched.vals[keys[i]] == agent {
          if keys[i] in board && keys[i] !in unreadable {
            ids := ids + [keys[i]];
          }
        }
      }
      assert keys[..|keys|] == keys;
    }

    method RestoreTasks(ids: seq<string>, agent: string)
      requires forall id :: id in ids ==> id in board
      modifies this`tasks
      ensures tasks == Restore(old(tasks), ids, board, agent)
    {
      ghost var before := tasks;
      for i := 0 to |ids|
        invariant tasks == Restore(before, ids[..i], board, agent)
      {
        assert ids[..i + 1][..i] == ids[..i];
        if ids[i] !in tasks.vals && board[ids[i]].status !in {"completed", "failed"} {
          tasks := tasks.Put(ids[i], Task(agent, board[ids[i]].status, None, None));
        }
      }
      assert ids[..|ids|] == ids;
    }

    method MergeReport(agent: string, report: seq<Entry>, unreadable: set<string>) returns (healed: nat)
      modifies this`tasks, this`board
      ensures tasks == Merge(old(tasks), report, agent)
      ensures board == Heal(cfg.table, old(board), dispatched, unreadable, report)
      ensures healed == Healed(cfg.table, old(board), dispatched, unreadable, report)
    {
      healed := 0;
      ghost var before, rows := tasks, board;
      for i := 0 to |report|
        invariant tasks == Merge(before, report[..i], agent)
        invariant board == Heal(cfg.table, rows, dispatched, unreadable, report[..i])
        invariant healed == Healed(cfg.table, rows, dispatched, unreadable, report[..i])
      {
        assert report[..i + 1][..i] == report[..i];
        var e := report[i];
        if e.key.Id? && e.key.id != "" && Truthy(e.status) {
          var id, status := e.key.id, e.status.value;
          if id in tasks.vals {
            tasks := tasks.Put(id, tasks.vals[id].(state := status));
          } else if status !in {"completed", "failed", "success", "done"} {
            tasks := tasks.Put(id, Task(agent, status, None, None));
          }
          if status in {"working", "running", "accepted"} && id in dispatched.vals {
            if id in board && id !in unreadable && board[id].status == "dangling" {
              if CanUpdate(cfg.table, board, id, "running") {
                healed := healed + 1;
              }
              board := Update(cfg.table, board, id, "running", None);
            }
          }
        }
      }
      assert report[..|report|] == report;
    }

    method FindOrphans(agent: string, ids: seq<string>, rows: Board, reported: set<string>) returns (reply: seq<Orphan>)
      requires forall id :: id in ids ==> id in rows
      ensures var fromMemory := MemoryReply(tasks.keys, tasks, agent, reported);
              reply == fromMemory + BoardReply(ids, rows, OrphanIds(fromMemory), reported)
    {
      reply := [];
      var keys, seen := tasks.keys, {};
      for i := 0 to |keys|
        invariant reply == MemoryReply(keys[..i], tasks, agent, reported) && seen == OrphanIds(reply)
      {
        assert keys[..i + 1][..i] == keys[..i];
        if keys[i] in tasks.vals && tasks.vals[keys[i]].owner == agent && keys[i] !in reported {
          var task := tasks.vals[keys[i]];
          if task.state in {"completed", "failed"} {
            var orphan := Orphan(keys[i], task.state, task.result, task.error);
            assert OrphanIds(reply + [orphan]) == OrphanIds(reply) + {keys[i]};
            reply := reply + [orphan];
            seen := seen + {keys[i]};
          }
        }
      }
      assert keys[..|keys|] == keys;
      ghost var fromMemory := reply;
      for i := 0 to |ids|
        invariant reply == fromMemory + BoardReply(ids[..i], rows, seen, reported)
      {
        assert ids[..i + 1][..i] == ids[..i];
        if ids[i] !in seen && ids[i] !in reported && rows[ids[i]].status in {"completed", "failed"} {
          reply := reply + [Orphan(ids[i], rows[ids[i]].status, rows[ids[i]].result, None)];
        }
      }
      assert ids[..|ids|] == ids;
    }

    /** The final log loop: an entry without an "id" member raises when its task is to be logged. */
    method LogUnknown(report: seq<Entry>) returns (raised: bool)
      ensures raised == LogRaises(report, tasks)
    {
      raised := false;
      for i := 0 to |report|
        invariant raised == LogRaises(report[..i], tasks)
      {
        assert report[..i + 1][..i] == report[..i];
        var e := report[i];
        if e.status.Some? && e.status.value in {"completed", "success", "done"} {
          if !(e.key.Id? && e.key.id in tasks.vals) {
            if e.key.Missing? {
              raised := true;
            }
          }
        }
      }
      assert report[..|report|] == report;
    }

    method ApplyReport(agent: string, report: seq<Entry>, unreadable: set<string>) returns (reply: seq<Orphan>)
      modifies this
      ensures View() == SyncStep(cfg, old(View()), agent, report, unreadable)
      ensures var out := Sync(cfg.table, old(tasks), dispatched, old(board), agent, report, unreadable);
              out.reply == if LogRaises(report, tasks) then None else Some(reply)
    {
      var rows := board;
      var ids := QueryBoard(agent, unreadable);
      RestoreTasks(ids, agent);
      var healed := MergeReport(agent, report, unreadable);
      if healed > 0 {
        CancelDanglingTimer(agent);
      }
      reply := FindOrphans(agent, ids, rows, ReportedIds(report));
    }

    /** `handle_state_sync` past its security checks; no reply when the final log loop raises. */
    method HandleStateSync(agent: string, report: seq<Entry>, unreadable: set<string>, now: real)
      returns (reply: Option<seq<Orphan>>)
      requires Valid()
      modifies this
      ensures Valid() && View() == SyncStep(cfg, old(View()), agent, report, unreadable)
      ensures reply == Sync(cfg.table, old(tasks), dispatched, old(board), agent, report, unreadable).reply
    {
      SyncKeeps(cfg, View(), agent, report, unreadable, now);
      var orphans := ApplyReport(agent, report, unreadable);
      var raised := LogUnknown(report);
      reply := if raised then None else Some(orphans);
    }

    // ---- dispatch and callbacks ---------------------------------------------------

    method BeginDispatch(agent: string, id: string, now: real)
      requires Valid() && id != "" && id !in tasks.vals
      modifies this
      ensures Valid() && View() == DispatchBeginStep(old(View()), agent, id)
    {
      tasks.PutValid(id, Task(agent, "dispatched", None, None));
      tasks := tasks.Put(id, Task(agent, "dispatched", None, None));
      inFlight := inFlight + {id};
    }

    /** The send or POST went through: the state is overwritten whatever happened meanwhile. */
    method DispatchForwarded(id: string, now: real)
      requires Valid() && id in inFlight && id in tasks.vals
      modifies this
      ensures Valid() && View() == DispatchSentStep(old(View()), id, now)
    {
      DispatchSentKeeps(View(), id, now);
      tasks := tasks.Put(id, tasks.vals[id].(state := "forwarded"));
      inFlight := inFlight - {id};
      ScheduleTaskTimeout(id, now);
    }

    method DispatchRefused(id: string, error: Option<string>)
      requires Valid() && id in inFlight && id in tasks.vals
      modifies this
      ensures Valid() && View() == DispatchFailedStep(old(View()), id, error)
    {
      tasks.PutValid(id, tasks.vals[id].(state := "failed", error := error));
      tasks := tasks.Put(id, tasks.vals[id].(state := "failed", error := error));
      inFlight := inFlight - {id};
    }

    /** The check that opens a callback request; the write follows after an await. */
    method CheckCallback(id: string) returns (open: bool)
      requires Valid()
      modifies this`callbacks
      ensures Valid() && open == (id in tasks.vals && tasks.vals[id].state !in {"completed", "failed", "cancelled"})
      ensures open == Enabled(cfg, old(View()), CallbackCheck(id), 0.0)
      ensures View() == if open then Step(cfg, old(View()), CallbackCheck(id), 0.0) else old(View())
    {
      open := id in tasks.vals && tasks.vals[id].state !in {"completed", "failed", "cancelled"};
      if open {
        callbacks := callbacks + {id};
      }
    }

    method CallbackResult(id: string, failed: bool, result: Option<string>, error: Option<string>, now: real)
      requires Valid() && id in callbacks && id in tasks.vals
      modifies this
      ensures Valid() && View() == CallbackWriteStep(cfg, old(View()), id, failed, result, error)
    {
      ghost var before := View();
      var task := tasks.vals[id];
      if failed || Truthy(error) {
        task := task.(state := "failed", error := if Truthy(error) then error else Some("Callback reported failure"));
      } else {
        task := task.(state := "completed", result := result);
      }
      assert task == CallbackRecord(before.tasks.vals[id], failed, result, error);
      StoreFinal(id, task, result);
      StoreKeeps(cfg, before, id, task, task.state, result, now);
    }

    method StoreFinal(id: string, task: Task, result: Option<string>)
      modifies this
      ensures View() == Store(cfg, old(View()), id, task, task.state, result)
    {
      tasks := tasks.Put(id, task);
      CancelTaskTimeout(id);
      board := Reconcile(cfg.table, board, dispatched, id, task.state, result);
    }
  }
}
