/** The reconnect merge of `handle_state_sync` (registry_handler.py), past its security checks. */
module StateSync {
  import opened Common
  import opened TaskBoard

  /** An in-memory task record; timestamps and display fields are not modelled. */
  datatype Task = Task(owner: string, state: string, result: Option<string>, error: Option<string>)

  /** The "id" member of a report entry: it may be missing, null or a string. */
  datatype Key = Missing | Null | Id(id: string)

  datatype Entry = Entry(key: Key, status: Option<string>)

  datatype Orphan = Orphan(id: string, status: string, result: Option<string>, error: Option<string>)

  predicate Finished(status: string) { status in {"completed", "failed"} }

  /** Statuses for which an unknown task is not recreated from the report. */
  predicate Final(status: string) { status in {"completed", "failed", "success", "done"} }

  predicate Active(status: string) { status in {"working", "running", "accepted"} }

  // ---- what the report says -------------------------------------------------------

  function ReportedIds(report: seq<Entry>): set<string> {
    set e | e in report && e.key.Id? :: e.key.id
  }

  /** The entry carries an id and a status, so the merge acts on it. */
  predicate Bears(e: Entry, id: string) {
    e.key == Id(id) && id != "" && e.status.Some? && e.status.value != ""
  }

  predicate Mentioned(report: seq<Entry>, id: string) {
    exists e :: e in report && Bears(e, id)
  }

  function LastStatus(report: seq<Entry>, id: string): string
    requires Mentioned(report, id)
  {
    var n := |report| - 1;
    if Bears(report[n], id) then report[n].status.value
    else
      assert report == report[..n] + [report[n]];
      LastStatus(report[..n], id)
  }

  /** Some entry lets the merge create a record for `id`. */
  predicate Creates(report: seq<Entry>, id: string) {
    exists e :: e in report && Bears(e, id) && !Final(e.status.value)
  }

  /** Some entry claims that `id` is being worked on. */
  predicate ClaimsActive(report: seq<Entry>, id: string) {
    exists e :: e in report && Bears(e, id) && Active(e.status.value)
  }

  /** A finished entry without an "id" member makes the final log loop raise, so no reply is sent. */
  predicate Raises(report: seq<Entry>) {
    exists e :: e in report && e.key.Missing? && e.status.Some? && e.status.value in {"completed", "success", "done"}
  }

  // ---- step 1: the board's view ---------------------------------------------------

  predicate InBoardView(dispatched: Dict<string>, board: Board, agent: string, unreadable: set<string>, id: string) {
    id in dispatched.vals && dispatched.vals[id] == agent && id in board && id !in unreadable
  }

  /** The keys of `db_dispatched`, in the order of the dispatch map. */
  function BoardView(keys: seq<string>, dispatched: Dict<string>, board: Board, agent: string,
                     unreadable: set<string>): seq<string> {
    if keys == [] then []
    else
      var rest := BoardView(keys[..|keys| - 1], dispatched, board, agent, unreadable);
      var id := keys[|keys| - 1];
      if id in dispatched.vals && dispatched.vals[id] == agent && id in board && id !in unreadable then rest + [id]
      else rest
  }

  lemma {:induction false} BoardViewExact(keys: seq<string>, dispatched: Dict<string>, board: Board, agent: string,
                                          unreadable: set<string>)
    ensures forall id :: id in BoardView(keys, dispatched, board, agent, unreadable) <==>
                         id in keys && InBoardView(dispatched, board, agent, unreadable, id)
    ensures Distinct(keys) ==> Distinct(BoardView(keys, dispatched, board, agent, unreadable))
  {
    if keys != [] {
      var n := |keys| - 1;
      assert keys == keys[..n] + [keys[n]];
      BoardViewExact(keys[..n], dispatched, board, agent, unreadable);
      var rest := BoardView(keys[..n], dispatched, board, agent, unreadable);
      assert forall i :: 0 <= i < |rest| ==> rest[i] in rest;
    }
  }

  lemma {:induction false} BoardViewSame(keys: seq<string>, dispatched: Dict<string>, b: Board, b': Board,
                                         agent: string, unreadable: set<string>)
    requires b.Keys == b'.Keys
    ensures BoardView(keys, dispatched, b, agent, unreadable) == BoardView(keys, dispatched, b', agent, unreadable)
  {
    if keys != [] {
      BoardViewSame(keys[..|keys| - 1], dispatched, b, b', agent, unreadable);
    }
  }

  /** Recreate the records of unfinished board tasks that memory has lost. */
  function Restore(tasks: Dict<Task>, ids: seq<string>, board: Board, agent: string): Dict<Task>
    requires forall id :: id in ids ==> id in board
  {
    if ids == [] then tasks
    else
      var n := |ids| - 1;
      var t := Restore(tasks, ids[..n], board, agent);
      if ids[n] in t.vals || board[ids[n]].status in {"completed", "failed"} then t
      else t.Put(ids[n], Task(agent, board[ids[n]].status, None, None))
  }

  lemma {:induction false} RestoreExact(tasks: Dict<Task>, ids: seq<string>, board: Board, agent: string)
    requires tasks.Valid()
    requires forall id :: id in ids ==> id in board
    ensures Restore(tasks, ids, board, agent).Valid()
    ensures forall id :: id in Restore(tasks, ids, board, agent).vals <==>
                         id in tasks.vals || (id in ids && !Finished(board[id].status))
    ensures forall id :: id in Restore(tasks, ids, board, agent).vals ==>
                         Restore(tasks, ids, board, agent).vals[id] ==
                         if id in tasks.vals then tasks.vals[id] else Task(agent, board[id].status, None, None)
    ensures (forall id :: id in ids ==> id in tasks.vals || Finished(board[id].status)) ==>
            Restore(tasks, ids, board, agent) == tasks
  {
    if ids != [] {
      var n := |ids| - 1;
      assert ids == ids[..n] + [ids[n]];
      RestoreExact(tasks, ids[..n], board, agent);
      var t := Restore(tasks, ids[..n], board, agent);
      if !(ids[n] in t.vals || Finished(board[ids[n]].status)) {
        t.PutValid(ids[n], Task(agent, board[ids[n]].status, None, None));
      }
    }
  }

  // ---- step 2: the agent's report -------------------------------------------------

  function MergeEntry(tasks: Dict<Task>, e: Entry, agent: string): Dict<Task> {
    if !e.key.Id? || e.key.id == "" || !Truthy(e.status) then tasks
    else if e.key.id in tasks.vals then tasks.Put(e.key.id, tasks.vals[e.key.id].(state := e.status.value))
    else if e.status.value !in {"completed", "failed", "success", "done"}
      then tasks.Put(e.key.id, Task(agent, e.status.value, None, None))
    else tasks
  }

  function Merge(tasks: Dict<Task>, report: seq<Entry>, agent: string): Dict<Task> {
    if report == [] then tasks
    else MergeEntry(Merge(tasks, report[..|report| - 1], agent), report[|report| - 1], agent)
  }

  /** What the merge leaves under an id, whatever the order and the duplicates of the report. */
  ghost predicate MergedAt(before: Dict<Task>, report: seq<Entry>, agent: string, after: Dict<Task>, id: string) {
    && (id in after.vals <==> id in before.vals || Creates(report, id))
    && (id in after.vals ==>
          var base := if id in before.vals then before.vals[id] else Task(agent, "", None, None);
          after.vals[id] == if Mentioned(report, id) then base.(state := LastStatus(report, id)) else base)
  }

  lemma ReportStep(report: seq<Entry>, id: string)
    requires report != []
    ensures var n := |report| - 1;
            && (Mentioned(report, id) <==> Mentioned(report[..n], id) || Bears(report[n], id))
            && (Creates(report, id) <==>
                Creates(report[..n], id) || (Bears(report[n], id) && !Final(report[n].status.value)))
            && (ClaimsActive(report, id) <==>
                ClaimsActive(report[..n], id) || (Bears(report[n], id) && Active(report[n].status.value)))
  {
    var n := |report| - 1;
    assert report == report[..n] + [report[n]];
  }

  lemma {:induction false} MergeAt(tasks: Dict<Task>, report: seq<Entry>, agent: string, id: string)
    ensures MergedAt(tasks, report, agent, Merge(tasks, report, agent), id)
  {
    if report != [] {
      ReportStep(report, id);
      MergeAt(tasks, report[..|report| - 1], agent, id);
    }
  }

  lemma {:induction false} MergeKeys(tasks: Dict<Task>, report: seq<Entry>, agent: string)
    requires tasks.Valid()
    ensures Merge(tasks, report, agent).Valid()
    ensures tasks.vals.Keys <= Merge(tasks, report, agent).vals.Keys
    ensures tasks.vals.Keys == Merge(tasks, report, agent).vals.Keys ==> Merge(tasks, report, agent).keys == tasks.keys
  {
    if report != [] {
      var n := |report| - 1;
      MergeKeys(tasks, report[..n], agent);
      var m := Merge(tasks, report[..n], agent);
      if report[n].key.Id? {
        m.PutValid(report[n].key.id, Task(agent, report[n].status.GetOr(""), None, None));
      }
    }
  }

  lemma MergeExact(tasks: Dict<Task>, report: seq<Entry>, agent: string)
    requires tasks.Valid()
    ensures Merge(tasks, report, agent).Valid()
    ensures forall id :: MergedAt(tasks, report, agent, Merge(tasks, report, agent), id)
  {
    MergeKeys(tasks, report, agent);
    forall id
      ensures MergedAt(tasks, report, agent, Merge(tasks, report, agent), id)
    {
      MergeAt(tasks, report, agent, id);
    }
  }

  // ---- step 2, board side: healing ------------------------------------------------

  predicate HealsEntry(board: Board, dispatched: Dict<string>, unreadable: set<string>, e: Entry) {
    && e.key.Id? && e.key.id != "" && e.status.Some? && e.status.value in {"working", "running", "accepted"}
    && e.key.id in dispatched.vals && e.key.id in board && e.key.id !in unreadable
    && board[e.key.id].status == "dangling"
  }

  /** The board after the healing writes of the report's entries. */
  function Heal(table: Transitions, board: Board, dispatched: Dict<string>, unreadable: set<string>,
                report: seq<Entry>): Board {
    if report == [] then board
    else
      var n := |report| - 1;
      var b := Heal(table, board, dispatched, unreadable, report[..n]);
      if HealsEntry(b, dispatched, unreadable, report[n])
      then Update(table, b, report[n].key.id, "running", None)
      else b
  }

  /** `healed_count`: the healing writes that did not raise. */
  function Healed(table: Transitions, board: Board, dispatched: Dict<string>, unreadable: set<string>,
                  report: seq<Entry>): nat {
    if report == [] then 0
    else
      var n := |report| - 1;
      var b := Heal(table, board, dispatched, unreadable, report[..n]);
      Healed(table, board, dispatched, unreadable, report[..n])
      + if HealsEntry(b, dispatched, unreadable, report[n]) && CanUpdate(table, b, report[n].key.id, "running")
        then 1
        else 0
  }

  predicate Healable(board: Board, dispatched: Dict<string>, unreadable: set<string>, report: seq<Entry>, id: string) {
    id in board && board[id].status == "dangling" && id in dispatched.vals && id !in unreadable
    && ClaimsActive(report, id)
  }

  lemma {:induction false} HealAt(table: Transitions, board: Board, dispatched: Dict<string>, unreadable: set<string>,
                                  report: seq<Entry>, id: string)
    ensures Heal(table, board, dispatched, unreadable, report).Keys == board.Keys
    ensures id in board ==>
              Heal(table, board, dispatched, unreadable, report)[id] ==
              if Healable(board, dispatched, unreadable, report, id) && ("dangling", "running") in table
              then board[id].(status := "running") else board[id]
  {
    if report != [] {
      HealAt(table, board, dispatched, unreadable, report[..|report| - 1], id);
      ReportStep(report, id);
    }
  }

  lemma HealableStep(board: Board, dispatched: Dict<string>, unreadable: set<string>, report: seq<Entry>, id: string)
    requires report != []
    ensures Healable(board, dispatched, unreadable, report, id) <==>
            || Healable(board, dispatched, unreadable, report[..|report| - 1], id)
            || (report[|report| - 1].key == Id(id) && HealsEntry(board, dispatched, unreadable, report[|report| - 1]))
  {
    ReportStep(report, id);
  }

  /** The last entry heals exactly when its task was healable from the start and not healed before. */
  lemma HealsLast(table: Transitions, board: Board, dispatched: Dict<string>, unreadable: set<string>,
                  report: seq<Entry>, e: Entry)
    ensures var b := Heal(table, board, dispatched, unreadable, report);
            (HealsEntry(b, dispatched, unreadable, e) && CanUpdate(table, b, e.key.id, "running")) <==>
            && HealsEntry(board, dispatched, unreadable, e) && ("dangling", "running") in table
            && !Healable(board, dispatched, unreadable, report, e.key.id)
  {
    if e.key.Id? {
      HealAt(table, board, dispatched, unreadable, report, e.key.id);
    }
  }

  lemma {:induction false} HealedSome(table: Transitions, board: Board, dispatched: Dict<string>,
                                      unreadable: set<string>,
                                      report: seq<Entry>)
    ensures Healed(table, board, dispatched, unreadable, report) > 0 <==>
            ("dangling", "running") in table && exists id :: Healable(board, dispatched, unreadable, report, id)
  {
    if report != [] {
      var n := |report| - 1;
      HealedSome(table, board, dispatched, unreadable, report[..n]);
      HealsLast(table, board, dispatched, unreadable, report[..n], report[n]);
      forall id {
        HealableStep(board, dispatched, unreadable, report, id);
      }
      if report[n].key.Id? && HealsEntry(board, dispatched, unreadable, report[n]) {
        assert Healable(board, dispatched, unreadable, report, report[n].key.id);
      }
    }
  }

  lemma HealExact(table: Transitions, board: Board, dispatched: Dict<string>, unreadable: set<string>,
                  report: seq<Entry>)
    ensures Heal(table, board, dispatched, unreadable, report).Keys == board.Keys
    ensures forall id :: id in board ==>
                         Heal(table, board, dispatched, unreadable, report)[id] ==
                         if Healable(board, dispatched, unreadable, report, id) && ("dangling", "running") in table
                         then board[id].(status := "running") else board[id]
    ensures Healed(table, board, dispatched, unreadable, report) > 0 <==>
            ("dangling", "running") in table && exists id :: Healable(board, dispatched, unreadable, report, id)
  {
    HealAt(table, board, dispatched, unreadable, report, "");
    forall id | id in board {
      HealAt(table, board, dispatched, unreadable, report, id);
    }
    HealedSome(table, board, dispatched, unreadable, report);
  }

  // ---- step 3: the orphan reply ---------------------------------------------------

  predicate MemoryOrphan(tasks: Dict<Task>, agent: string, reported: set<string>, id: string) {
    id in tasks.vals && tasks.vals[id].owner == agent && id !in reported && Finished(tasks.vals[id].state)
  }

  function MemoryReply(keys: seq<string>, tasks: Dict<Task>, agent: string, reported: set<string>): seq<Orphan> {
    if keys == [] then []
    else
      var n := |keys| - 1;
      var rest := MemoryReply(keys[..n], tasks, agent, reported);
      if keys[n] in tasks.vals && tasks.vals[keys[n]].owner == agent && keys[n] !in reported
         && tasks.vals[keys[n]].state in {"completed", "failed"} then
        rest + [Orphan(keys[n], tasks.vals[keys[n]].state, tasks.vals[keys[n]].result, tasks.vals[keys[n]].error)]
      else rest
  }

  predicate BoardOrphan(board: Board, seen: set<string>, reported: set<string>, id: string) {
    id in board && id !in seen && id !in reported && Finished(board[id].status)
  }

  function BoardReply(ids: seq<string>, board: Board, seen: set<string>, reported: set<string>): seq<Orphan> {
    if ids == [] then []
    else
      var n := |ids| - 1;
      var rest := BoardReply(ids[..n], board, seen, reported);
      if ids[n] in board && ids[n] !in seen && ids[n] !in reported && board[ids[n]].status in {"completed", "failed"}
      then rest + [Orphan(ids[n], board[ids[n]].status, board[ids[n]].result, None)]
      else rest
  }

  function OrphanIds(reply: seq<Orphan>): set<string> {
    set o | o in reply :: o.id
  }

  ghost predicate DistinctIds(reply: seq<Orphan>) {
    forall i, j :: 0 <= i < j < |reply| ==> reply[i].id != reply[j].id
  }

  lemma {:induction false} MemoryReplyExact(keys: seq<string>, tasks: Dict<Task>, agent: string, reported: set<string>)
    ensures forall o :: o in MemoryReply(keys, tasks, agent, reported) <==>
                        && o.id in keys && MemoryOrphan(tasks, agent, reported, o.id)
                        && o == Orphan(o.id, tasks.vals[o.id].state, tasks.vals[o.id].result, tasks.vals[o.id].error)
    ensures Distinct(keys) ==> DistinctIds(MemoryReply(keys, tasks, agent, reported))
  {
    if keys != [] {
      var n := |keys| - 1;
      assert keys == keys[..n] + [keys[n]];
      MemoryReplyExact(keys[..n], tasks, agent, reported);
      var rest := MemoryReply(keys[..n], tasks, agent, reported);
      assert forall i :: 0 <= i < |rest| ==> rest[i] in rest;
    }
  }

  lemma {:induction false} BoardReplyExact(ids: seq<string>, board: Board, seen: set<string>, reported: set<string>)
    ensures forall o :: o in BoardReply(ids, board, seen, reported) <==>
                        && o.id in ids && BoardOrphan(board, seen, reported, o.id)
                        && o == Orphan(o.id, board[o.id].status, board[o.id].result, None)
    ensures Distinct(ids) ==> DistinctIds(BoardReply(ids, board, seen, reported))
  {
    if ids != [] {
      var n := |ids| - 1;
      assert ids == ids[..n] + [ids[n]];
      BoardReplyExact(ids[..n], board, seen, reported);
      var rest := BoardReply(ids[..n], board, seen, reported);
      assert forall i :: 0 <= i < |rest| ==> rest[i] in rest;
    }
  }

  lemma {:induction false} BoardReplySame(ids: seq<string>, b: Board, b': Board, seen: set<string>,
                                          reported: set<string>)
    requires b.Keys == b'.Keys
    requires forall id :: id in b ==> b[id] == b'[id] || (!Finished(b[id].status) && !Finished(b'[id].status))
    ensures BoardReply(ids, b, seen, reported) == BoardReply(ids, b', seen, reported)
  {
    if ids != [] {
      BoardReplySame(ids[..|ids| - 1], b, b', seen, reported);
    }
  }

  // ---- step 4: the log ------------------------------------------------------------

  /** The final loop logs the finished entries of tasks that memory does not know, and raises at one
      without an "id" member. */
  function LogRaises(report: seq<Entry>, tasks: Dict<Task>): bool {
    if report == [] then false
    else
      var n := |report| - 1;
      var e := report[n];
      LogRaises(report[..n], tasks)
      || (e.status.Some? && e.status.value in {"completed", "success", "done"}
          && !(e.key.Id? && e.key.id in tasks.vals) && e.key.Missing?)
  }

  lemma {:induction false} LogRaisesExact(report: seq<Entry>, tasks: Dict<Task>)
    ensures LogRaises(report, tasks) <==> Raises(report)
  {
    if report != [] {
      var n := |report| - 1;
      assert report == report[..n] + [report[n]];
      LogRaisesExact(report[..n], tasks);
    }
  }

  // ---- the whole merge ------------------------------------------------------------

  datatype Outcome = Outcome(tasks: Dict<Task>, board: Board, healed: nat, reply: Option<seq<Orphan>>)

  function Sync(table: Transitions, tasks: Dict<Task>, dispatched: Dict<string>, board: Board,
                agent: string, report: seq<Entry>, unreadable: set<string>): Outcome
  {
    BoardViewExact(dispatched.keys, dispatched, board, agent, unreadable);
    var ids := BoardView(dispatched.keys, dispatched, board, agent, unreadable);
    var merged := Merge(Restore(tasks, ids, board, agent), report, agent);
    var fromMemory := MemoryReply(merged.keys, merged, agent, ReportedIds(report));
    var fromBoard := BoardReply(ids, board, OrphanIds(fromMemory), ReportedIds(report));
    Outcome(merged,
            Heal(table, board, dispatched, unreadable, report),
            Healed(table, board, dispatched, unreadable, report),
            if LogRaises(report, merged) then None else Some(fromMemory + fromBoard))
  }

  lemma MergeTwice(tasks: Dict<Task>, report: seq<Entry>, agent: string)
    requires tasks.Valid()
    ensures var m := Merge(tasks, report, agent); Merge(m, report, agent) == m
  {
    var m := Merge(tasks, report, agent);
    MergeExact(tasks, report, agent);
    MergeExact(m, report, agent);
    MergeKeys(m, report, agent);
    forall id
      ensures id in Merge(m, report, agent).vals <==> id in m.vals
      ensures id in m.vals ==> Merge(m, report, agent).vals[id] == m.vals[id]
    {
      assert MergedAt(tasks, report, agent, m, id) && MergedAt(m, report, agent, Merge(m, report, agent), id);
    }
    assert Merge(m, report, agent).vals == m.vals;
  }

  lemma HealTwice(table: Transitions, board: Board, dispatched: Dict<string>, unreadable: set<string>,
                  report: seq<Entry>)
    ensures var b := Heal(table, board, dispatched, unreadable, report);
            && Heal(table, b, dispatched, unreadable, report) == b
            && Healed(table, b, dispatched, unreadable, report) == 0
  {
    var b := Heal(table, board, dispatched, unreadable, report);
    HealExact(table, board, dispatched, unreadable, report);
    HealExact(table, b, dispatched, unreadable, report);
    if ("dangling", "running") in table {
      assert forall id :: !Healable(b, dispatched, unreadable, report, id);
    }
  }

  /** One finished entry without an id is enough to lose the reply. */
  lemma ReplyLost(table: Transitions, tasks: Dict<Task>, dispatched: Dict<string>, board: Board, agent: string)
    ensures Sync(table, tasks, dispatched, board, agent, [Entry(Missing, Some("completed"))], {}).reply == None
  {
    var report := [Entry(Missing, Some("completed"))];
    assert report[..0] == [] && report[0] in report;
    assert LogRaises(report, Sync(table, tasks, dispatched, board, agent, report, {}).tasks);
  }

  /** Restoring and merging again, from a board that differs only where tasks were healed. */
  lemma MemoryTwice(tasks: Dict<Task>, ids: seq<string>, board: Board, board': Board, report: seq<Entry>, agent: string)
    requires tasks.Valid() && board.Keys == board'.Keys && forall id <- ids :: id in board
    requires forall id <- ids :: Finished(board'[id].status) <==> Finished(board[id].status)
    ensures var once := Merge(Restore(tasks, ids, board, agent), report, agent);
            Restore(once, ids, board', agent) == once && Merge(once, report, agent) == once
  {
    var restored := Restore(tasks, ids, board, agent);
    RestoreExact(tasks, ids, board, agent);
    MergeKeys(restored, report, agent);
    RestoreExact(Merge(restored, report, agent), ids, board', agent);
    MergeTwice(restored, report, agent);
  }

  /** The merge is idempotent: a second run of the same report changes neither memory nor
      board, heals nothing more and sends the same reply, duplicates in the report included. */
  lemma SyncIdempotent(table: Transitions, tasks: Dict<Task>, dispatched: Dict<string>, board: Board,
                       agent: string, report: seq<Entry>, unreadable: set<string>)
    requires tasks.Valid()
    ensures var once := Sync(table, tasks, dispatched, board, agent, report, unreadable);
            var twice := Sync(table, once.tasks, dispatched, once.board, agent, report, unreadable);
            twice == once.(healed := 0)
  {
    var once := Sync(table, tasks, dispatched, board, agent, report, unreadable);
    var ids := BoardView(dispatched.keys, dispatched, board, agent, unreadable);
    BoardViewExact(dispatched.keys, dispatched, board, agent, unreadable);
    HealExact(table, board, dispatched, unreadable, report);
    HealTwice(table, board, dispatched, unreadable, report);
    BoardViewSame(dispatched.keys, dispatched, board, once.board, agent, unreadable);
    MemoryTwice(tasks, ids, board, once.board, report, agent);
    var seen := OrphanIds(MemoryReply(once.tasks.keys, once.tasks, agent, ReportedIds(report)));
    BoardReplySame(ids, board, once.board, seen, ReportedIds(report));
  }

  /** The two halves of the reply together, over any memory and any view of the board. */
  lemma ReplyExact(tasks: Dict<Task>, ids: seq<string>, board: Board, agent: string, reported: set<string>)
    requires tasks.Valid() && Distinct(ids)
    ensures var fromMemory := MemoryReply(tasks.keys, tasks, agent, reported);
            var reply := fromMemory + BoardReply(ids, board, OrphanIds(fromMemory), reported);
            && DistinctIds(reply)
            && (forall o :: o in reply <==>
                  if MemoryOrphan(tasks, agent, reported, o.id)
                  then o == Orphan(o.id, tasks.vals[o.id].state, tasks.vals[o.id].result, tasks.vals[o.id].error)
                  else && o.id in ids && o.id in board && o.id !in reported && Finished(board[o.id].status)
                       && o == Orphan(o.id, board[o.id].status, board[o.id].result, None))
  {
    var fromMemory := MemoryReply(tasks.keys, tasks, agent, reported);
    MemoryReplyExact(tasks.keys, tasks, agent, reported);
    var fromBoard := BoardReply(ids, board, OrphanIds(fromMemory), reported);
    BoardReplyExact(ids, board, OrphanIds(fromMemory), reported);
    assert forall id :: id in OrphanIds(fromMemory) <==> MemoryOrphan(tasks, agent, reported, id) by {
      forall id | MemoryOrphan(tasks, agent, reported, id)
        ensures id in OrphanIds(fromMemory)
      {
        assert Orphan(id, tasks.vals[id].state, tasks.vals[id].result, tasks.vals[id].error) in fromMemory;
      }
    }
    assert forall i :: 0 <= i < |fromMemory| ==> fromMemory[i] in fromMemory;
    assert forall i :: 0 <= i < |fromBoard| ==> fromBoard[i] in fromBoard;
  }

  /** The reply is exact: it is sent unless the report makes the final log loop raise, and holds
      one entry per orphan, none reported by the agent, and precisely the finished tasks the agent
      owns in memory plus the finished ones dispatched to it on the board, memory winning when
      both know the task. */
  lemma SyncReplyExact(table: Transitions, tasks: Dict<Task>, dispatched: Dict<string>, board: Board,
                       agent: string, report: seq<Entry>, unreadable: set<string>)
    requires tasks.Valid() && dispatched.Valid()
    ensures var out := Sync(table, tasks, dispatched, board, agent, report, unreadable);
            var reported := ReportedIds(report);
            && (out.reply.None? <==> Raises(report))
            && (out.reply.Some? ==>
                  && DistinctIds(out.reply.value)
                  && (forall o :: o in out.reply.value ==> o.id !in reported)
                  && (forall o :: o in out.reply.value <==>
                        if o.id in out.tasks.vals && out.tasks.vals[o.id].owner == agent && o.id !in reported
                           && out.tasks.vals[o.id].state in {"completed", "failed"}
                        then o == Orphan(o.id, out.tasks.vals[o.id].state, out.tasks.vals[o.id].result,
                                         out.tasks.vals[o.id].error)
                        else && o.id in dispatched.vals && dispatched.vals[o.id] == agent
                             && o.id in board && o.id !in unreadable
                             && o.id !in reported && board[o.id].status in {"completed", "failed"}
                             && o == Orphan(o.id, board[o.id].status, board[o.id].result, None)))
  {
    var out := Sync(table, tasks, dispatched, board, agent, report, unreadable);
    var reported := ReportedIds(report);
    var ids := BoardView(dispatched.keys, dispatched, board, agent, unreadable);
    BoardViewExact(dispatched.keys, dispatched, board, agent, unreadable);
    RestoreExact(tasks, ids, board, agent);
    MergeKeys(Restore(tasks, ids, board, agent), report, agent);
    LogRaisesExact(report, out.tasks);
    ReplyExact(out.tasks, ids, board, agent, reported);
  }

  /** What memory holds afterwards, id by id: old records and every readable unfinished board
      task of the agent survive, each reported one carrying the last status reported for it. */
  lemma SyncMemoryExact(table: Transitions, tasks: Dict<Task>, dispatched: Dict<string>, board: Board,
                        agent: string, report: seq<Entry>, unreadable: set<string>, id: string)
    requires tasks.Valid() && dispatched.Valid()
    ensures var after := Sync(table, tasks, dispatched, board, agent, report, unreadable).tasks;
            var lost := && id !in tasks.vals && id in dispatched.vals && dispatched.vals[id] == agent
                        && id in board && id !in unreadable && board[id].status !in {"completed", "failed"};
            && after.Valid()
            && (id in after.vals <==> id in tasks.vals || lost || Creates(report, id))
            && (id in after.vals ==>
                  after.vals[id] == (if id in tasks.vals then tasks.vals[id] else Task(agent, "", None, None)).(
                    state := if Mentioned(report, id) then LastStatus(report, id)
                             else if lost then board[id].status
                             else tasks.vals[id].state))
  {
    var ids := BoardView(dispatched.keys, dispatched, board, agent, unreadable);
    BoardViewExact(dispatched.keys, dispatched, board, agent, unreadable);
    RestoreExact(tasks, ids, board, agent);
    MergeExact(Restore(tasks, ids, board, agent), report, agent);
    assert MergedAt(Restore(tasks, ids, board, agent), report, agent,
                    Merge(Restore(tasks, ids, board, agent), report, agent), id);
  }
}
