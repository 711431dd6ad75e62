/** Runs that show why the run theorems say no more than they do. */
module LifecycleLimits {
  import opened Common
  import opened TaskBoard
  import opened StateSync
  import opened TaskLifecycle
  import opened LifecycleRuns

  const EMPTY := State(Dict([], map[]), Dict([], map[]), map[], map[], map[], [], [], {}, {})

  ghost predicate Moves(cfg: Config, s: State, e: Event, now: real, s': State) {
    Enabled(cfg, s, e, now) && s' == Step(cfg, s, e, now)
  }

  lemma FirstAck(cfg: Config, s: State, id: string, status: Given, now: real)
    requires id != "" && id !in s.tasks.vals && id !in s.taskTimers && id !in s.dispatched.vals
    ensures AckStep(cfg, s, "a", id, status, now) ==
            s.(tasks := Dict(s.tasks.keys + [id],
                             s.tasks.vals[id := Task("a", status.StateOr("accepted"), None, None)]),
               timeouts := s.timeouts + [Timer(id, now, Sleeping)], taskTimers := s.taskTimers[id := |s.timeouts|])
  {
  }

  // ---- a literal "dangling" status ------------------------------------------------

  const CFG := Config(300.0, 30.0, REPOSITORY_TRANSITIONS)

  const ACKED := EMPTY.(tasks := Dict(["x"], map["x" := Task("a", "accepted", None, None)]),
                        timeouts := [Timer("x", 0.0, Sleeping)], taskTimers := map["x" := 0])

  const LOST := EMPTY.(tasks := Dict(["x"], map["x" := Task("a", "dangling", None, Some("agent_disconnected_grace"))]),
                       timeouts := [Timer("x", 0.0, Cancelled)],
                       graces := [Timer("a", 0.0, Sleeping)], graceTimers := map["a" := 0])

  const CLAIMED := LOST.(tasks := Dict(["x", "y"], LOST.tasks.vals["y" := Task("a", "dangling", None, None)]),
                         timeouts := LOST.timeouts + [Timer("y", 20.0, Sleeping)], taskTimers := map["y" := 1])

  lemma LiteralAcks()
    ensures Moves(CFG, EMPTY, Ack("a", "x", Absent), 0.0, ACKED)
    ensures Moves(CFG, LOST, Ack("a", "y", Text("dangling")), 20.0, CLAIMED)
  {
    FirstAck(CFG, EMPTY, "x", Absent, 0.0);
    FirstAck(CFG, LOST, "y", Text("dangling"), 20.0);
  }

  lemma LiteralDangle()
    ensures Moves(CFG, ACKED, Dangle("a"), 0.0, LOST)
  {
    assert ToDangle(ACKED.tasks, "a") == {"x"};
    assert DangleAll(CFG, ACKED, {"x"}) == LOST.(graces := [], graceTimers := map[]);
  }

  lemma LiteralFire() returns (last: State)
    ensures Moves(CFG, CLAIMED, GraceFire(0), 30.0, last)
    ensures "y" in last.tasks.vals && last.tasks.vals["y"].error == Some("agent_disconnected_timeout")
  {
    assert "y" in StillDangling(CLAIMED.tasks, "a");
    last := GraceStep(CFG, CLAIMED, 0);
  }

  /** A message may carry the literal status "dangling": in this run the grace timer of a
      disconnect at 0 fails, at 30, the task "y" that its agent reported at 20. */
  lemma LiteralDanglingFailsEarly() returns (cfg: Config, s0: State, s1: State, s2: State, s3: State, s4: State)
    ensures cfg.grace == 30.0 && cfg.table == REPOSITORY_TRANSITIONS && Init(s0)
    ensures Moves(cfg, s0, Ack("a", "x", Absent), 0.0, s1) && Moves(cfg, s1, Dangle("a"), 0.0, s2)
    ensures Moves(cfg, s2, Ack("a", "y", Text("dangling")), 20.0, s3) && Moves(cfg, s3, GraceFire(0), 30.0, s4)
    ensures "y" in s4.tasks.vals && s4.tasks.vals["y"].error == Some("agent_disconnected_timeout")
  {
    LiteralAcks();
    LiteralDangle();
    cfg, s0, s1, s2, s3 := CFG, EMPTY, ACKED, LOST, CLAIMED;
    s4 := LiteralFire();
  }

  // ---- a late message -------------------------------------------------------------

  const COMPLETED := EMPTY.(tasks := Dict(["x"], map["x" := Task("a", "completed", Some("{}"), None)]),
                            timeouts := [Timer("x", 0.0, Cancelled)])

  const REOPENED := COMPLETED.(tasks := Dict(["x"], map["x" := Task("a", "accepted", Some("{}"), None)]),
                               timeouts := [Timer("x", 0.0, Cancelled), Timer("x", 2.0, Sleeping)],
                               taskTimers := map["x" := 1])

  /** A late acknowledgement reopens a completed task. */
  lemma LateAckReopens() returns (cfg: Config, s0: State, s1: State, s2: State, s3: State)
    ensures Init(s0) && Moves(cfg, s0, Ack("a", "x", Absent), 0.0, s1)
    ensures Moves(cfg, s1, Complete("a", "x", Absent), 1.0, s2) && Moves(cfg, s2, Ack("a", "x", Absent), 2.0, s3)
    ensures "x" in s2.tasks.vals && s2.tasks.vals["x"].state == "completed"
    ensures "x" in s3.tasks.vals && s3.tasks.vals["x"].state == "accepted"
    ensures IsFinished(s2, "x") && Reopens(Ack("a", "x", Absent), "x") && !IsFinished(s3, "x")
  {
    LiteralAcks();
    cfg, s0, s1, s2, s3 := CFG, EMPTY, ACKED, COMPLETED, REOPENED;
    assert ACKED.tasks.Put("x", COMPLETED.tasks.vals["x"]) == COMPLETED.tasks;
    assert COMPLETED.tasks.Put("x", REOPENED.tasks.vals["x"]) == REOPENED.tasks;
  }

  const STRAY := EMPTY.(tasks := Dict(["x"], map["x" := Task("a", "dangling", None, None)]),
                        timeouts := [Timer("x", 0.0, Sleeping)], taskTimers := map["x" := 0])

  /** With the repository's own table, one message is enough to leave a task dangling with no grace
      timer. */
  lemma LiteralStrays() returns (cfg: Config, s0: State, s1: State)
    ensures cfg.table == REPOSITORY_TRANSITIONS && Init(s0)
    ensures Moves(cfg, s0, Ack("a", "x", Text("dangling")), 0.0, s1)
            && Strays(cfg, s0, Ack("a", "x", Text("dangling")), "x")
    ensures IsDangling(s1, "x") && !Covered(s1)
  {
    FirstAck(CFG, EMPTY, "x", Text("dangling"), 0.0);
    cfg, s0, s1 := CFG, EMPTY, STRAY;
    assert Uncovered(s1, "x");
  }

  // ---- healing under a permissive table -------------------------------------------

  const HEALING := Config(300.0, 30.0, {("running", "dangling"), ("dangling", "running")})

  const REPORT := [Entry(Id("x"), Some("working"))]

  const OTHER := Task("a", "dangling", None, Some("agent_disconnected_grace"))

  const ACCEPTED := Task("a", "accepted", None, None)

  /** Two tasks of agent "a"; only "x" was dispatched from the board. */
  const BOTH := State(Dict(["x", "y"], map["x" := ACCEPTED, "y" := ACCEPTED]),
                      Dict(["x"], map["x" := "a"]), map["x" := BoardTask("running", None)],
                      map["x" := 0, "y" := 1], map[],
                      [Timer("x", 0.0, Sleeping), Timer("y", 0.0, Sleeping)], [], {}, {})

  const BOTH_LOST := State(Dict(["x", "y"], map["x" := OTHER, "y" := OTHER]),
                           Dict(["x"], map["x" := "a"]), map["x" := BoardTask("dangling", None)],
                           map[], map["a" := 0], [Timer("x", 0.0, Cancelled), Timer("y", 0.0, Cancelled)],
                           [Timer("a", 1.0, Sleeping)], {}, {})

  const DISPATCHED := EMPTY.(board := map["x" := BoardTask("running", None)],
                             dispatched := Dict(["x"], map["x" := "a"]))

  const ONE := DISPATCHED.(tasks := Dict(["x"], map["x" := Task("a", "accepted", None, None)]),
                           timeouts := [Timer("x", 0.0, Sleeping)], taskTimers := map["x" := 0])

  lemma HealingWrites()
    ensures Moves(HEALING, EMPTY, BoardWrite("x", BoardTask("running", None)), 0.0, EMPTY.(board := DISPATCHED.board))
    ensures Moves(HEALING, EMPTY.(board := DISPATCHED.board), BoardDispatch("x", "a"), 0.0, DISPATCHED)
  {
  }

  lemma HealingFirstAck()
    ensures Moves(HEALING, DISPATCHED, Ack("a", "x", Absent), 0.0, ONE)
  {
    assert !CanUpdate(HEALING.table, DISPATCHED.board, "x", "running");
  }

  lemma HealingSecondAck()
    ensures Moves(HEALING, ONE, Ack("a", "y", Absent), 0.0, BOTH)
  {
    FirstAck(HEALING, ONE, "y", Absent, 0.0);
  }

  lemma HealingDangle()
    ensures Moves(HEALING, BOTH, Dangle("a"), 1.0, BOTH_LOST)
  {
    var ids := {"x", "y"};
    assert ToDangle(BOTH.tasks, "a") == ids;
    DangledRecords(ids);
    DangledTimers(ids);
  }

  lemma DangledRecords(ids: set<string>)
    requires ids == {"x", "y"}
    ensures Rewrite(BOTH.tasks, ids, "dangling", "agent_disconnected_grace") == BOTH_LOST.tasks
    ensures BoardAll(HEALING.table, BOTH.board, BOTH.dispatched, ids, "dangling") == BOTH_LOST.board
  {
  }

  lemma DangledTimers(ids: set<string>)
    requires ids == {"x", "y"}
    ensures CancelTimeouts(BOTH.timeouts, BOTH.taskTimers, ids) == BOTH_LOST.timeouts
    ensures BOTH.taskTimers - ids == map[]
  {
  }

  lemma ReportHeals()
    ensures Heals(HEALING, BOTH_LOST, SyncReport("a", REPORT, {}))
  {
    assert REPORT[0] in REPORT && Bears(REPORT[0], "x");
    assert Healable(BOTH_LOST.board, BOTH_LOST.dispatched, {}, REPORT, "x");
    HealExact(HEALING.table, BOTH_LOST.board, BOTH_LOST.dispatched, {}, REPORT);
  }

  lemma ReportLeavesOther() returns (last: State)
    ensures Moves(HEALING, BOTH_LOST, SyncReport("a", REPORT, {}), 2.0, last)
    ensures !Covered(last)
  {
    ReportHeals();
    last := SyncStep(HEALING, BOTH_LOST, "a", REPORT, {});
    ReportSilent();
    assert Uncovered(last, "y");
  }

  lemma ReportSilent()
    ensures var s := BOTH_LOST;
            var after := Sync(HEALING.table, s.tasks, s.dispatched, s.board, "a", REPORT, {}).tasks;
            "y" in after.vals && after.vals["y"] == OTHER
  {
    assert !Mentioned(REPORT, "y");
    SyncMemoryExact(HEALING.table, BOTH_LOST.tasks, BOTH_LOST.dispatched, BOTH_LOST.board, "a", REPORT, {}, "y");
  }

  /** With a table that lets tasks dangle and recover on the board, a report that heals one task
      cancels the grace timer and leaves an unreported one dangling with nothing to fail it. */
  lemma HealingForgetsATask() returns (cfg: Config, s0: State, s1: State, s2: State, s3: State, s4: State, s5: State,
                                       s6: State, report: seq<Entry>)
    ensures Init(s0) && report == [Entry(Id("x"), Some("working"))]
    ensures Moves(cfg, s0, BoardWrite("x", BoardTask("running", None)), 0.0, s1)
            && Moves(cfg, s1, BoardDispatch("x", "a"), 0.0, s2)
    ensures Moves(cfg, s2, Ack("a", "x", Absent), 0.0, s3) && Moves(cfg, s3, Ack("a", "y", Absent), 0.0, s4)
    ensures Moves(cfg, s4, Dangle("a"), 1.0, s5) && Moves(cfg, s5, SyncReport("a", report, {}), 2.0, s6)
    ensures Heals(cfg, s5, SyncReport("a", report, {})) && !Covered(s6)
  {
    HealingWrites();
    HealingFirstAck();
    HealingSecondAck();
    HealingDangle();
    ReportHeals();
    cfg, report := HEALING, REPORT;
    s0, s1, s2, s3, s4, s5 := EMPTY, EMPTY.(board := DISPATCHED.board), DISPATCHED, ONE, BOTH, BOTH_LOST;
    s6 := ReportLeavesOther();
  }
}
