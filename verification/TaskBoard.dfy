/** The kanban board (orchestration/store.py) as far as the WebSocket side uses it: a status
    and a result for every board task, with status changes guarded by a transition table. */
module TaskBoard {
  import opened Common

  datatype BoardTask = BoardTask(status: string, result: Option<string>)

  type Board = map<string, BoardTask>

  type Transitions = set<(string, string)>

  /** The table of orchestration/state_machine.py. */
  const REPOSITORY_TRANSITIONS: Transitions := {
    ("todo", "ready"), ("todo", "cancelled"),
    ("ready", "running"), ("ready", "todo"), ("ready", "blocked"), ("ready", "cancelled"),
    ("running", "completed"), ("running", "failed"), ("running", "blocked"), ("running", "cancelled"),
    ("blocked", "running"), ("blocked", "ready"), ("blocked", "failed"), ("blocked", "cancelled"),
    ("completed", "archived"),
    ("failed", "ready"), ("failed", "archived"), ("failed", "cancelled"),
    ("cancelled", "archived")
  }

  predicate CanUpdate(table: Transitions, board: Board, id: string, status: string) {
    id in board && (board[id].status, status) in table
  }

  /** `update_task_status`, with the exception its callers swallow: a missing task or a
      transition outside the table leaves the board as it was. */
  function Update(table: Transitions, board: Board, id: string, status: string, result: Option<string>): Board {
    if CanUpdate(table, board, id, status) then
      board[id := BoardTask(status, if status == "completed" && Truthy(result) then result else board[id].result)]
    else
      board
  }

  /** `_reconcile_task_store`: only tasks dispatched from the board are written back, and
      only for a running, completed or failed status. */
  function Reconcile(table: Transitions, board: Board, dispatched: Dict<string>,
                     id: string, status: string, result: Option<string>): Board {
    if id !in dispatched.vals then board
    else if status == "running" then Update(table, board, id, "running", None)
    else if status in {"completed", "success"} then Update(table, board, id, "completed", result)
    else if status in {"failed", "error"} then Update(table, board, id, "failed", None)
    else board
  }

  /** The board never reports a task as dangling. */
  ghost predicate NoneDangling(board: Board) {
    forall id :: id in board ==> board[id].status != "dangling"
  }

  /** The statuses that each status may change to; "archived" and "dangling" lead nowhere. */
  lemma RepositorySuccessors(to: string)
    ensures ("todo", to) in REPOSITORY_TRANSITIONS <==> to in {"ready", "cancelled"}
    ensures ("ready", to) in REPOSITORY_TRANSITIONS <==> to in {"running", "todo", "blocked", "cancelled"}
    ensures ("running", to) in REPOSITORY_TRANSITIONS <==> to in {"completed", "failed", "blocked", "cancelled"}
    ensures ("blocked", to) in REPOSITORY_TRANSITIONS <==> to in {"running", "ready", "failed", "cancelled"}
    ensures ("completed", to) in REPOSITORY_TRANSITIONS <==> to == "archived"
    ensures ("failed", to) in REPOSITORY_TRANSITIONS <==> to in {"ready", "archived", "cancelled"}
    ensures ("cancelled", to) in REPOSITORY_TRANSITIONS <==> to == "archived"
    ensures ("archived", to) !in REPOSITORY_TRANSITIONS && ("dangling", to) !in REPOSITORY_TRANSITIONS
  {
  }

  /** The repository's table refuses the update of a disconnect at every task, so it always raises
      and changes nothing. */
  lemma RepositoryRefusesDangling(board: Board, id: string, result: Option<string>)
    ensures !CanUpdate(REPOSITORY_TRANSITIONS, board, id, "dangling")
    ensures Update(REPOSITORY_TRANSITIONS, board, id, "dangling", result) == board
  {
  }

  /** The repository's table leads into "dangling" from nowhere, so no update writes it. */
  lemma RepositoryTableNeverDangles(board: Board, id: string, status: string, result: Option<string>)
    requires NoneDangling(board)
    ensures NoneDangling(Update(REPOSITORY_TRANSITIONS, board, id, status, result))
  {
  }
}
