/** The WebSocket task protocol of server.py and registry_handler.py as a state machine. Every
    event is one stretch of code between two awaits, so any sequence of enabled events is an
    interleaving of the handlers and timers. */
module TaskLifecycle {
  import opened Common
  import opened TaskBoard
  import opened StateSync

  datatype Config = Config(taskTimeout: real, grace: real, table: Transitions)

  /** Sending: a timeout worker awaiting the send of its cancel message. */
  datatype Phase = Sleeping | Sending | Cancelled | Done

  /** An asyncio timer task; its handle is its index in the sequence of all timers created. */
  datatype Timer = Timer(key: string, start: real, phase: Phase) {
    predicate Live() { phase.Sleeping? || phase.Sending? }
  }

  datatype State = State(
    tasks: Dict<Task>,
    dispatched: Dict<string>,
    board: Board,
    taskTimers: map<string, nat>,
    graceTimers: map<string, nat>,
    timeouts: seq<Timer>,
    graces: seq<Timer>,
    inFlight: set<string>,
    callbacks: set<string>)

  datatype Event =
    | Ack(agent: string, id: string, status: Given)
    | Progress(agent: string, id: string, status: Given)
    | Complete(agent: string, id: string, output: Given)
    | Fail(agent: string, id: string, reason: Given)
    | Result(agent: string, id: string, status: Given, output: Given, error: Option<string>)
    | SyncReport(agent: string, report: seq<Entry>, unreadable: set<string>)
    | Dangle(agent: string)
    | GraceFire(handle: nat)
    | TimeoutFire(handle: nat, connected: bool)
    | TimeoutSent(handle: nat)
    | DispatchBegin(agent: string, id: string)
    | DispatchSent(id: string)
    | DispatchFailed(id: string, error: Option<string>)
    | CallbackCheck(id: string)
    | CallbackWrite(id: string, failed: bool, result: Option<string>, error: Option<string>)
    | BoardDispatch(id: string, agent: string)
    | BoardWrite(id: string, row: BoardTask)

  // ---- task records ---------------------------------------------------------------

  /** States that the disconnect, grace and timeout steps leave alone. */
  predicate Terminal(state: string) { state in {"completed", "failed", "cancelled"} }

  /** The record under `id`, or the blank one a handler creates for an unknown task. */
  function Record(tasks: Dict<Task>, agent: string, id: string): Task {
    if id in tasks.vals then tasks.vals[id] else Task(agent, "", None, None)
  }

  // ---- timers ---------------------------------------------------------------------

  /** Marks a handle; a timer that has finished keeps its phase. */
  function Mark(timers: seq<Timer>, handle: nat, phase: Phase): seq<Timer> {
    if handle < |timers| && timers[handle].Live() then timers[handle := timers[handle].(phase := phase)] else timers
  }

  function CancelTimeout(s: State, id: string): State {
    if id in s.taskTimers then
      s.(taskTimers := s.taskTimers - {id}, timeouts := Mark(s.timeouts, s.taskTimers[id], Cancelled))
    else s
  }

  function ScheduleTimeout(s: State, id: string, now: real): State {
    var c := CancelTimeout(s, id);
    if id !in c.tasks.vals then c
    else c.(timeouts := c.timeouts + [Timer(id, now, Sleeping)], taskTimers := c.taskTimers[id := |c.timeouts|])
  }

  function CancelGrace(s: State, agent: string): State {
    if agent in s.graceTimers then
      s.(graceTimers := s.graceTimers - {agent}, graces := Mark(s.graces, s.graceTimers[agent], Cancelled))
    else s
  }

  // ---- the steps ------------------------------------------------------------------

  function AckStep(cfg: Config, s: State, agent: string, id: string, status: Given, now: real): State {
    if id == "" then s
    else
      ScheduleTimeout(
        s.(tasks := s.tasks.Put(id, Record(s.tasks, agent, id).(state := status.StateOr("accepted"))),
           board := Reconcile(cfg.table, s.board, s.dispatched, id, "running", None)),
        id, now)
  }

  function ProgressStep(s: State, agent: string, id: string, status: Given, now: real): State {
    if id == "" then s
    else
      ScheduleTimeout(s.(tasks := s.tasks.Put(id, Record(s.tasks, agent, id).(state := status.StateOr("working")))),
                      id, now)
  }

  /** Store a final record, reconcile the board and stop the task's timeout timer. */
  function Store(cfg: Config, s: State, id: string, record: Task, status: string, result: Option<string>): State {
    CancelTimeout(
      s.(tasks := s.tasks.Put(id, record), board := Reconcile(cfg.table, s.board, s.dispatched, id, status, result)),
      id)
  }

  /** The common shape of the three result messages; one without an id is dropped. */
  function Settle(cfg: Config, s: State, id: string, record: Task, status: string, result: Option<string>): State {
    if id == "" then s else Store(cfg, s, id, record, status, result)
  }

  function CompleteStep(cfg: Config, s: State, agent: string, id: string, result: Given): State {
    Settle(cfg, s, id, Record(s.tasks, agent, id).(state := "completed", result := result.ValueOr("{}"), error := None),
           "completed", result.Value())
  }

  function FailStep(cfg: Config, s: State, agent: string, id: string, error: Given): State {
    Settle(cfg, s, id, Record(s.tasks, agent, id).(state := "failed", error := error.ValueOr("Unknown error")),
           "failed", None)
  }

  function ResultStep(cfg: Config, s: State, agent: string, id: string,
                      status: Given, result: Given, error: Option<string>): State {
    var st := status.StateOr("completed");
    Settle(cfg, s, id, Record(s.tasks, agent, id).(state := st, result := result.ValueOr("{}"), error := error), st,
           result.Value())
  }

  function SyncStep(cfg: Config, s: State, agent: string, report: seq<Entry>, unreadable: set<string>): State {
    var out := Sync(cfg.table, s.tasks, s.dispatched, s.board, agent, report, unreadable);
    var s' := s.(tasks := out.tasks, board := out.board);
    if out.healed > 0 then CancelGrace(s', agent) else s'
  }

  /** The tasks that a disconnect of `agent` dangles. */
  function ToDangle(tasks: Dict<Task>, agent: string): set<string> {
    set id | id in tasks.vals && tasks.vals[id].owner == agent
             && tasks.vals[id].state !in {"completed", "failed", "cancelled", "dangling"}
  }

  function Rewrite(tasks: Dict<Task>, ids: set<string>, state: string, error: string): Dict<Task> {
    Dict(tasks.keys, map id | id in tasks.vals ::
      if id in ids then tasks.vals[id].(state := state, error := Some(error)) else tasks.vals[id])
  }

  function BoardAll(table: Transitions, board: Board, dispatched: Dict<string>, ids: set<string>,
                    status: string): Board {
    map id | id in board ::
      if id in ids && id in dispatched.vals then Update(table, board, id, status, None)[id] else board[id]
  }

  function CancelTimeouts(timeouts: seq<Timer>, taskTimers: map<string, nat>, ids: set<string>): seq<Timer> {
    seq(|timeouts|, h requires 0 <= h < |timeouts| =>
      var t := timeouts[h];
      if t.key in ids && t.key in taskTimers && taskTimers[t.key] == h && t.Live() then t.(phase := Cancelled) else t)
  }

  /** Mark the tasks in memory and on the board and stop their timeout timers. */
  function DangleAll(cfg: Config, s: State, ids: set<string>): State {
    s.(tasks := Rewrite(s.tasks, ids, "dangling", "agent_disconnected_grace"),
       board := BoardAll(cfg.table, s.board, s.dispatched, ids, "dangling"),
       timeouts := CancelTimeouts(s.timeouts, s.taskTimers, ids),
       taskTimers := s.taskTimers - ids)
  }

  function RestartGrace(s: State, agent: string, now: real): State {
    var c := CancelGrace(s, agent);
    c.(graces := c.graces + [Timer(agent, now, Sleeping)], graceTimers := c.graceTimers[agent := |c.graces|])
  }

  function DangleStep(cfg: Config, s: State, agent: string, now: real): State {
    var ids := ToDangle(s.tasks, agent);
    if ids == {} then s else RestartGrace(DangleAll(cfg, s, ids), agent, now)
  }

  /** The tasks that the end of the grace period of `agent` fails. */
  function StillDangling(tasks: Dict<Task>, agent: string): set<string> {
    set id | id in tasks.vals && tasks.vals[id].owner == agent && tasks.vals[id].state == "dangling"
  }

  function GraceStep(cfg: Config, s: State, handle: nat): State
    requires handle < |s.graces|
  {
    var agent := s.graces[handle].key;
    var ids := StillDangling(s.tasks, agent);
    s.(tasks := Rewrite(s.tasks, ids, "failed", "agent_disconnected_timeout"),
       board := BoardAll(cfg.table, s.board, s.dispatched, ids, "failed"),
       graceTimers := s.graceTimers - {agent},
       graces := Mark(s.graces, handle, Done))
  }

  /** The end of the timeout worker, after its cancel message: board write, then its own entry. */
  function TimeoutEnd(cfg: Config, s: State, handle: nat): State
    requires handle < |s.timeouts|
  {
    var id := s.timeouts[handle].key;
    s.(board := if id in s.dispatched.vals then Update(cfg.table, s.board, id, "failed", None) else s.board,
       taskTimers := s.taskTimers - {id},
       timeouts := Mark(s.timeouts, handle, Done))
  }

  function TimeoutStep(cfg: Config, s: State, handle: nat, connected: bool): State
    requires handle < |s.timeouts|
  {
    var id := s.timeouts[handle].key;
    if id !in s.tasks.vals || s.tasks.vals[id].state in {"completed", "failed", "cancelled"} then
      s.(taskTimers := s.taskTimers - {id}, timeouts := Mark(s.timeouts, handle, Done))
    else
      var s' := s.(tasks := s.tasks.Put(id, s.tasks.vals[id].(state := "failed", error := Some("timeout"))));
      if connected then s'.(timeouts := Mark(s'.timeouts, handle, Sending)) else TimeoutEnd(cfg, s', handle)
  }

  function DispatchBeginStep(s: State, agent: string, id: string): State {
    s.(tasks := s.tasks.Put(id, Task(agent, "dispatched", None, None)), inFlight := s.inFlight + {id})
  }

  function DispatchSentStep(s: State, id: string, now: real): State
    requires id in s.tasks.vals
  {
    ScheduleTimeout(s.(tasks := s.tasks.Put(id, s.tasks.vals[id].(state := "forwarded")),
                       inFlight := s.inFlight - {id}), id, now)
  }

  function DispatchFailedStep(s: State, id: string, error: Option<string>): State
    requires id in s.tasks.vals
  {
    s.(tasks := s.tasks.Put(id, s.tasks.vals[id].(state := "failed", error := error)), inFlight := s.inFlight - {id})
  }

  function CallbackRecord(task: Task, failed: bool, result: Option<string>, error: Option<string>): Task {
    if Truthy(error) then task.(state := "failed", error := error)
    else if failed then task.(state := "failed", error := Some("Callback reported failure"))
    else task.(state := "completed", result := result)
  }

  function CallbackWriteStep(cfg: Config, s: State, id: string, failed: bool, result: Option<string>,
                             error: Option<string>): State
    requires id in s.tasks.vals
  {
    var record := CallbackRecord(s.tasks.vals[id], failed, result, error);
    Store(cfg, s, id, record, record.state, result)
  }

  /** What must hold for an event to happen: timers fire only while alive and not early, a
      dispatched id is new, and the second half of a request follows its first half. Writes to
      the board by the dispatcher and other components never say "dangling". */
  predicate Enabled(cfg: Config, s: State, e: Event, now: real) {
    match e
    case GraceFire(h) => h < |s.graces| && s.graces[h].phase.Sleeping? && now >= s.graces[h].start + cfg.grace
    case TimeoutFire(h, _) =>
      h < |s.timeouts| && s.timeouts[h].phase.Sleeping? && now >= s.timeouts[h].start + cfg.taskTimeout
    case TimeoutSent(h) => h < |s.timeouts| && s.timeouts[h].phase.Sending?
    case DispatchBegin(_, id) => id !in s.tasks.vals && id != ""
    case DispatchSent(id) => id in s.inFlight && id in s.tasks.vals
    case DispatchFailed(id, _) => id in s.inFlight && id in s.tasks.vals
    case CallbackCheck(id) => id in s.tasks.vals && s.tasks.vals[id].state !in {"completed", "failed", "cancelled"}
    case CallbackWrite(id, _, _, _) => id in s.callbacks && id in s.tasks.vals
    case BoardWrite(_, row) => row.status != "dangling"
    case _ => true
  }

  function Step(cfg: Config, s: State, e: Event, now: real): State
    requires Enabled(cfg, s, e, now)
  {
    match e
    case Ack(agent, id, status) => AckStep(cfg, s, agent, id, status, now)
    case Progress(agent, id, status) => ProgressStep(s, agent, id, status, now)
    case Complete(agent, id, result) => CompleteStep(cfg, s, agent, id, result)
    case Fail(agent, id, error) => FailStep(cfg, s, agent, id, error)
    case Result(agent, id, status, result, error) => ResultStep(cfg, s, agent, id, status, result, error)
    case SyncReport(agent, report, unreadable) => SyncStep(cfg, s, agent, report, unreadable)
    case Dangle(agent) => DangleStep(cfg, s, agent, now)
    case GraceFire(h) => GraceStep(cfg, s, h)
    case TimeoutFire(h, connected) => TimeoutStep(cfg, s, h, connected)
    case TimeoutSent(h) => TimeoutEnd(cfg, s, h)
    case DispatchBegin(agent, id) => DispatchBeginStep(s, agent, id)
    case DispatchSent(id) => DispatchSentStep(s, id, now)
    case DispatchFailed(id, error) => DispatchFailedStep(s, id, error)
    case CallbackCheck(id) => s.(callbacks := s.callbacks + {id})
    case CallbackWrite(id, failed, result, error) => CallbackWriteStep(cfg, s, id, failed, result, error)
    case BoardDispatch(id, agent) => s.(dispatched := s.dispatched.Put(id, agent))
    case BoardWrite(id, row) => s.(board := s.board[id := row])
  }

  // ---- the invariant --------------------------------------------------------------

  /** Exactly the live timers are stored, each under its own key. */
  ghost predicate TimersKept(timers: seq<Timer>, stored: map<string, nat>) {
    && (forall k :: k in stored ==> stored[k] < |timers| && timers[stored[k]].key == k && timers[stored[k]].Live())
    && (forall h :: 0 <= h < |timers| && timers[h].Live() ==> timers[h].key in stored && stored[timers[h].key] == h)
  }

  ghost predicate Inv(s: State) {
    && s.tasks.Valid() && s.dispatched.Valid()
    && TimersKept(s.timeouts, s.taskTimers)
    && TimersKept(s.graces, s.graceTimers)
    && (forall id :: id in s.board && s.board[id].status == "dangling" ==> id in s.tasks.vals)
  }

  ghost predicate Init(s: State) {
    && s.tasks == Dict([], map[]) && s.dispatched.Valid() && NoneDangling(s.board)
    && s.taskTimers == map[] && s.graceTimers == map[] && s.timeouts == [] && s.graces == []
    && s.inFlight == {} && s.callbacks == {}
  }

  lemma InitInv(s: State)
    requires Init(s)
    ensures Inv(s)
  {
  }

  /** Timers only move forward: handles keep their key and start, nothing comes back to life,
      and a new timer starts now. */
  ghost predicate TimersEvolve(timers: seq<Timer>, timers': seq<Timer>, now: real) {
    && |timers| <= |timers'|
    && (forall h :: 0 <= h < |timers| ==>
          && timers'[h].key == timers[h].key && timers'[h].start == timers[h].start
          && (timers'[h].Live() ==> timers[h].Live()))
    && (forall h :: |timers| <= h < |timers'| ==> timers'[h].start == now)
  }

  /** No record disappears or changes owner. */
  ghost predicate RecordsKept(tasks: Dict<Task>, tasks': Dict<Task>) {
    forall id :: id in tasks.vals ==> id in tasks'.vals && tasks'.vals[id].owner == tasks.vals[id].owner
  }

  ghost predicate Evolves(s: State, s': State, now: real) {
    && TimersEvolve(s.timeouts, s'.timeouts, now)
    && TimersEvolve(s.graces, s'.graces, now)
    && RecordsKept(s.tasks, s'.tasks)
  }

  lemma CancelKeeps(s: State, id: string, now: real)
    requires TimersKept(s.timeouts, s.taskTimers)
    ensures var s' := CancelTimeout(s, id);
            TimersKept(s'.timeouts, s'.taskTimers) && id !in s'.taskTimers && TimersEvolve(s.timeouts, s'.timeouts, now)
  {
  }

  lemma CancelGraceKeeps(s: State, agent: string, now: real)
    requires TimersKept(s.graces, s.graceTimers)
    ensures var s' := CancelGrace(s, agent);
            TimersKept(s'.graces, s'.graceTimers) && agent !in s'.graceTimers && TimersEvolve(s.graces, s'.graces, now)
  {
  }

  lemma StartKeeps(timers: seq<Timer>, stored: map<string, nat>, key: string, now: real)
    requires TimersKept(timers, stored) && key !in stored
    ensures TimersKept(timers + [Timer(key, now, Sleeping)], stored[key := |timers|])
  {
  }

  lemma ScheduleKeeps(s: State, id: string, now: real)
    requires TimersKept(s.timeouts, s.taskTimers)
    ensures var s' := ScheduleTimeout(s, id, now);
            TimersKept(s'.timeouts, s'.taskTimers) && TimersEvolve(s.timeouts, s'.timeouts, now)
  {
    CancelKeeps(s, id, now);
    var c := CancelTimeout(s, id);
    StartKeeps(c.timeouts, c.taskTimers, id, now);
  }

  lemma ReconcileKeys(table: Transitions, board: Board, dispatched: Dict<string>, id: string, status: string,
                      result: Option<string>)
    ensures var b := Reconcile(table, board, dispatched, id, status, result);
            && b.Keys == board.Keys
            && (forall k :: k in b && b[k].status == "dangling" ==> board[k].status == "dangling")
  {
  }

  lemma AckKeeps(cfg: Config, s: State, agent: string, id: string, status: Given, now: real)
    requires Inv(s)
    ensures var s' := AckStep(cfg, s, agent, id, status, now); Inv(s') && Evolves(s, s', now)
  {
    var r := Record(s.tasks, agent, id).(state := status.StateOr("accepted"));
    s.tasks.PutValid(id, r);
    ReconcileKeys(cfg.table, s.board, s.dispatched, id, "running", None);
    ScheduleKeeps(s.(tasks := s.tasks.Put(id, r),
                     board := Reconcile(cfg.table, s.board, s.dispatched, id, "running", None)), id, now);
  }

  lemma ProgressKeeps(s: State, agent: string, id: string, status: Given, now: real)
    requires Inv(s)
    ensures var s' := ProgressStep(s, agent, id, status, now); Inv(s') && Evolves(s, s', now)
  {
    var r := Record(s.tasks, agent, id).(state := status.StateOr("working"));
    s.tasks.PutValid(id, r);
    ScheduleKeeps(s.(tasks := s.tasks.Put(id, r)), id, now);
  }

  lemma StoreKeeps(cfg: Config, s: State, id: string, record: Task, status: string, result: Option<string>, now: real)
    requires Inv(s) && (id in s.tasks.vals ==> record.owner == s.tasks.vals[id].owner)
    ensures var s' := Store(cfg, s, id, record, status, result); Inv(s') && Evolves(s, s', now)
  {
    s.tasks.PutValid(id, record);
    ReconcileKeys(cfg.table, s.board, s.dispatched, id, status, result);
    CancelKeeps(s.(tasks := s.tasks.Put(id, record),
                   board := Reconcile(cfg.table, s.board, s.dispatched, id, status, result)), id, now);
  }

  lemma SyncKeeps(cfg: Config, s: State, agent: string, report: seq<Entry>, unreadable: set<string>, now: real)
    requires Inv(s)
    ensures var s' := SyncStep(cfg, s, agent, report, unreadable); Inv(s') && Evolves(s, s', now)
  {
    var out := Sync(cfg.table, s.tasks, s.dispatched, s.board, agent, report, unreadable);
    forall id
      ensures out.tasks.Valid()
      ensures id in s.tasks.vals ==> id in out.tasks.vals && out.tasks.vals[id].owner == s.tasks.vals[id].owner
    {
      SyncMemoryExact(cfg.table, s.tasks, s.dispatched, s.board, agent, report, unreadable, id);
    }
    SyncMemoryExact(cfg.table, s.tasks, s.dispatched, s.board, agent, report, unreadable, "");
    HealExact(cfg.table, s.board, s.dispatched, unreadable, report);
    CancelGraceKeeps(s.(tasks := out.tasks, board := out.board), agent, now);
  }

  /** Receiving the same report twice leaves the whole state as after the first time: memory,
      board and grace timers, whatever duplicates the report holds. */
  lemma SyncTwice(cfg: Config, s: State, agent: string, report: seq<Entry>, unreadable: set<string>)
    requires s.tasks.Valid()
    ensures var once := SyncStep(cfg, s, agent, report, unreadable);
            SyncStep(cfg, once, agent, report, unreadable) == once
  {
    SyncIdempotent(cfg.table, s.tasks, s.dispatched, s.board, agent, report, unreadable);
  }

  lemma RestartGraceKeeps(s: State, agent: string, now: real)
    requires TimersKept(s.graces, s.graceTimers)
    ensures var s' := RestartGrace(s, agent, now);
            TimersKept(s'.graces, s'.graceTimers) && TimersEvolve(s.graces, s'.graces, now)
  {
    CancelGraceKeeps(s, agent, now);
    var c := CancelGrace(s, agent);
    StartKeeps(c.graces, c.graceTimers, agent, now);
  }

  lemma CancelTimeoutsKeep(s: State, ids: set<string>, now: real)
    requires TimersKept(s.timeouts, s.taskTimers)
    ensures var t := CancelTimeouts(s.timeouts, s.taskTimers, ids);
            TimersKept(t, s.taskTimers - ids) && TimersEvolve(s.timeouts, t, now)
  {
  }

  lemma BoardAllKeys(table: Transitions, board: Board, dispatched: Dict<string>, ids: set<string>, status: string)
    ensures var b := BoardAll(table, board, dispatched, ids, status);
            && b.Keys == board.Keys
            && (forall k :: k in b && b[k].status == "dangling" ==>
                board[k].status == "dangling" || (status == "dangling" && k in ids))
  {
  }

  lemma DangleAllKeeps(cfg: Config, s: State, ids: set<string>, now: real)
    requires Inv(s) && ids <= s.tasks.vals.Keys
    ensures var s' := DangleAll(cfg, s, ids); Inv(s') && Evolves(s, s', now)
  {
    CancelTimeoutsKeep(s, ids, now);
    BoardAllKeys(cfg.table, s.board, s.dispatched, ids, "dangling");
  }

  lemma DangleKeeps(cfg: Config, s: State, agent: string, now: real)
    requires Inv(s)
    ensures var s' := DangleStep(cfg, s, agent, now); Inv(s') && Evolves(s, s', now)
  {
    var ids := ToDangle(s.tasks, agent);
    if ids != {} {
      DangleAllKeeps(cfg, s, ids, now);
      RestartGraceKeeps(DangleAll(cfg, s, ids), agent, now);
    }
  }

  lemma GraceKeeps(cfg: Config, s: State, handle: nat, now: real)
    requires Inv(s) && Enabled(cfg, s, GraceFire(handle), now)
    ensures var s' := GraceStep(cfg, s, handle); Inv(s') && Evolves(s, s', now)
  {
    BoardAllKeys(cfg.table, s.board, s.dispatched, StillDangling(s.tasks, s.graces[handle].key), "failed");
  }

  lemma TimeoutEndKeeps(cfg: Config, s: State, handle: nat, now: real)
    requires Inv(s) && handle < |s.timeouts| && s.timeouts[handle].Live()
    ensures var s' := TimeoutEnd(cfg, s, handle); Inv(s') && Evolves(s, s', now)
  {
  }

  lemma MarkKeeps(timers: seq<Timer>, stored: map<string, nat>, handle: nat, phase: Phase, now: real)
    requires TimersKept(timers, stored) && handle < |timers| && timers[handle].Live()
    ensures TimersEvolve(timers, Mark(timers, handle, phase), now)
    ensures TimersKept(Mark(timers, handle, phase),
                       if phase.Sleeping? || phase.Sending? then stored else stored - {timers[handle].key})
  {
  }

  lemma TimeoutKeeps(cfg: Config, s: State, handle: nat, connected: bool, now: real)
    requires Inv(s) && Enabled(cfg, s, TimeoutFire(handle, connected), now)
    ensures var s' := TimeoutStep(cfg, s, handle, connected); Inv(s') && Evolves(s, s', now)
  {
    var id := s.timeouts[handle].key;
    MarkKeeps(s.timeouts, s.taskTimers, handle, Done, now);
    MarkKeeps(s.timeouts, s.taskTimers, handle, Sending, now);
    if id in s.tasks.vals && !Terminal(s.tasks.vals[id].state) {
      var r := s.tasks.vals[id].(state := "failed", error := Some("timeout"));
      s.tasks.PutValid(id, r);
      var s1 := s.(tasks := s.tasks.Put(id, r));
      assert Inv(s1) && Evolves(s, s1, now);
      if !connected {
        TimeoutEndKeeps(cfg, s1, handle, now);
      }
    }
  }

  lemma DispatchSentKeeps(s: State, id: string, now: real)
    requires Inv(s) && id in s.tasks.vals
    ensures var s' := DispatchSentStep(s, id, now); Inv(s') && Evolves(s, s', now)
  {
    var r := s.tasks.vals[id].(state := "forwarded");
    s.tasks.PutValid(id, r);
    ScheduleKeeps(s.(tasks := s.tasks.Put(id, r), inFlight := s.inFlight - {id}), id, now);
  }

  lemma RequestKeeps(cfg: Config, s: State, e: Event, now: real)
    requires Inv(s) && Enabled(cfg, s, e, now)
    requires e.DispatchBegin? || e.DispatchSent? || e.DispatchFailed? || e.CallbackCheck? || e.CallbackWrite?
             || e.BoardDispatch? || e.BoardWrite?
    ensures Inv(Step(cfg, s, e, now)) && Evolves(s, Step(cfg, s, e, now), now)
  {
    match e
    case DispatchBegin(agent, id) => s.tasks.PutValid(id, Task(agent, "dispatched", None, None));
    case DispatchSent(id) => DispatchSentKeeps(s, id, now);
    case DispatchFailed(id, error) => s.tasks.PutValid(id, s.tasks.vals[id].(state := "failed", error := error));
    case CallbackWrite(id, failed, result, error) =>
      var record := CallbackRecord(s.tasks.vals[id], failed, result, error);
      StoreKeeps(cfg, s, id, record, record.state, result, now);
    case BoardDispatch(id, agent) => s.dispatched.PutValid(id, agent);
    case _ =>
  }

  /** Every step keeps the invariant, moves timers only forward and keeps every record with its
      owner: in every interleaving there is at most one live timeout timer per task and one live
      grace timer per agent, and it is the one stored under its key. */
  lemma StepKeeps(cfg: Config, s: State, e: Event, now: real)
    requires Inv(s) && Enabled(cfg, s, e, now)
    ensures Inv(Step(cfg, s, e, now)) && Evolves(s, Step(cfg, s, e, now), now)
  {
    match e
    case Ack(agent, id, status) => AckKeeps(cfg, s, agent, id, status, now);
    case Progress(agent, id, status) => ProgressKeeps(s, agent, id, status, now);
    case Complete(agent, id, result) =>
      var record := Record(s.tasks, agent, id).(state := "completed", result := result.ValueOr("{}"), error := None);
      StoreKeeps(cfg, s, id, record, "completed", result.Value(), now);
    case Fail(agent, id, error) =>
      var record := Record(s.tasks, agent, id).(state := "failed", error := error.ValueOr("Unknown error"));
      StoreKeeps(cfg, s, id, record, "failed", None, now);
    case Result(agent, id, status, result, error) =>
      var st := status.StateOr("completed");
      var record := Record(s.tasks, agent, id).(state := st, result := result.ValueOr("{}"), error := error);
      StoreKeeps(cfg, s, id, record, st, result.Value(), now);
    case SyncReport(agent, report, unreadable) => SyncKeeps(cfg, s, agent, report, unreadable, now);
    case Dangle(agent) => DangleKeeps(cfg, s, agent, now);
    case GraceFire(h) => GraceKeeps(cfg, s, h, now);
    case TimeoutFire(h, connected) => TimeoutKeeps(cfg, s, h, connected, now);
    case TimeoutSent(h) => TimeoutEndKeeps(cfg, s, h, now);
    case _ => RequestKeeps(cfg, s, e, now);
  }
}
