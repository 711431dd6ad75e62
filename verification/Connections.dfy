/** The WebSocket connection table of server.py: handlers of the same agent replace each other,
    clean up after themselves, and unregister requests and a sweep drop entries in between. */
module Connections {

  /** A socket handler: it has taken over the agent's entry, installed its own, cleaned up. */
  datatype Stage = TakenOver | Installed | CleanedUp

  datatype Handler = Handler(agent: string, stage: Stage)

  /** Sockets are numbered; a handler is identified with its socket. */
  datatype Table = Table(conns: map<string, nat>, handlers: map<nat, Handler>, closed: set<nat>)

  datatype Event =
    | TakeOver(socket: nat, agent: string)
    | Install(socket: nat)
    | Cleanup(socket: nat)
    | Unregister(agent: string)
    | Close(socket: nat)
    | Sweep

  /** A handler runs its stages in order on a socket of its own; anything may happen in between. */
  predicate Enabled(t: Table, e: Event) {
    match e
    case TakeOver(socket, _) => socket !in t.handlers
    case Install(socket) => socket in t.handlers && t.handlers[socket].stage.TakenOver?
    case Cleanup(socket) => socket in t.handlers && t.handlers[socket].stage.Installed?
    case _ => true
  }

  function Step(t: Table, e: Event): Table
    requires Enabled(t, e)
  {
    match e
    case TakeOver(socket, agent) =>
      t.(conns := t.conns - {agent}, handlers := t.handlers[socket := Handler(agent, TakenOver)])
    case Install(socket) =>
      var agent := t.handlers[socket].agent;
      t.(conns := t.conns[agent := socket], handlers := t.handlers[socket := Handler(agent, Installed)])
    case Cleanup(socket) =>
      var agent := t.handlers[socket].agent;
      t.(conns := if agent in t.conns && t.conns[agent] == socket then t.conns - {agent} else t.conns,
         handlers := t.handlers[socket := Handler(agent, CleanedUp)], closed := t.closed + {socket})
    case Unregister(agent) => t.(conns := t.conns - {agent})
    case Close(socket) => t.(closed := t.closed + {socket})
    case Sweep => t.(conns := map agent | agent in t.conns && t.conns[agent] !in t.closed :: t.conns[agent])
  }

  ghost predicate Run(tr: seq<Event>, ts: seq<Table>) {
    && |ts| == |tr| + 1
    && ts[0] == Table(map[], map[], {})
    && (forall i :: 0 <= i < |tr| ==> Enabled(ts[i], tr[i]) && ts[i + 1] == Step(ts[i], tr[i]))
  }

  /** Every entry belongs to a handler of that agent that has installed itself and not cleaned up. */
  ghost predicate Inv(t: Table) {
    forall agent :: agent in t.conns ==>
                      t.conns[agent] in t.handlers && t.handlers[t.conns[agent]] == Handler(agent, Installed)
  }

  lemma StepKeeps(t: Table, e: Event)
    requires Inv(t) && Enabled(t, e)
    ensures Inv(Step(t, e))
  {
    match e
    case TakeOver(socket, agent) =>
      assert forall a :: a in t.conns ==> t.conns[a] != socket;
    case _ =>
  }

  lemma {:induction false} RunInv(tr: seq<Event>, ts: seq<Table>, k: nat)
    requires Run(tr, ts) && k <= |tr|
    ensures Inv(ts[k])
  {
    if k > 0 {
      RunInv(tr, ts, k - 1);
      StepKeeps(ts[k - 1], tr[k - 1]);
    }
  }

  lemma InstalledSteps(t: Table, e: Event, socket: nat)
    requires Enabled(t, e) && socket in Step(t, e).handlers && Step(t, e).handlers[socket].stage.Installed?
    ensures (e == Install(socket) && socket in t.handlers
             && t.handlers[socket].agent == Step(t, e).handlers[socket].agent)
            || (e != Cleanup(socket) && socket in t.handlers && t.handlers[socket] == Step(t, e).handlers[socket])
  {
  }

  /** An installed handler ran its installation at some step and has not run its cleanup since. */
  lemma {:induction false} InstalledHistory(tr: seq<Event>, ts: seq<Table>, k: nat, socket: nat) returns (i: nat)
    requires Run(tr, ts) && k <= |tr| && socket in ts[k].handlers && ts[k].handlers[socket].stage.Installed?
    ensures i < k && tr[i] == Install(socket) && forall j :: i <= j < k ==> tr[j] != Cleanup(socket)
    ensures socket in ts[i].handlers && ts[i].handlers[socket].agent == ts[k].handlers[socket].agent
  {
    InstalledSteps(ts[k - 1], tr[k - 1], socket);
    if tr[k - 1] == Install(socket) {
      i := k - 1;
    } else {
      i := InstalledHistory(tr, ts, k - 1, socket);
    }
  }

  /** In every interleaving each connection entry names a handler of that agent that has run its
      installation and has not run its cleanup. */
  lemma EntriesAlive(tr: seq<Event>, ts: seq<Table>, k: nat, agent: string)
    requires Run(tr, ts) && k <= |tr| && agent in ts[k].conns
    ensures var socket := ts[k].conns[agent];
            exists i :: && 0 <= i < k && tr[i] == Install(socket)
                        && socket in ts[i].handlers && ts[i].handlers[socket].agent == agent
                        && (forall j :: i <= j < k ==> tr[j] != Cleanup(socket))
  {
    RunInv(tr, ts, k);
    var i := InstalledHistory(tr, ts, k, ts[k].conns[agent]);
  }

  ghost predicate NoEntry(t: Table, socket: nat) {
    forall agent :: agent in t.conns ==> t.conns[agent] != socket
  }

  /** A cleanup removes at most the handler's own entry: whatever else is in the table, and in
      particular the entry of a successor for the same agent, stays. */
  lemma CleanupSparesSuccessors(tr: seq<Event>, ts: seq<Table>, k: nat, agent: string)
    requires Run(tr, ts) && k < |tr| && tr[k].Cleanup?
    requires agent in ts[k].conns && ts[k].conns[agent] != tr[k].socket
    ensures agent in ts[k + 1].conns && ts[k + 1].conns[agent] == ts[k].conns[agent]
    ensures NoEntry(ts[k + 1], tr[k].socket)
  {
    RunInv(tr, ts, k);
    RunInv(tr, ts, k + 1);
  }

  // ---- exactly which entries there are ----------------------------------------------

  lemma ClosedStep(t: Table, e: Event, socket: nat)
    requires Enabled(t, e)
    ensures socket in Step(t, e).closed <==> socket in t.closed || e == Close(socket) || e == Cleanup(socket)
  {
  }

  /** A socket is closed exactly when its peer or its handler's cleanup has closed it. */
  lemma {:induction false} ClosedExact(tr: seq<Event>, ts: seq<Table>, k: nat, socket: nat)
    requires Run(tr, ts) && k <= |tr|
    ensures socket in ts[k].closed <==> exists i :: 0 <= i < k && (tr[i] == Close(socket) || tr[i] == Cleanup(socket))
  {
    if k > 0 {
      ClosedExact(tr, ts, k - 1, socket);
      ClosedStep(ts[k - 1], tr[k - 1], socket);
    }
  }

  /** The event takes the entry of the agent for the socket away, or replaces it. */
  ghost predicate Drops(t: Table, e: Event, agent: string, socket: nat) {
    match e
    case TakeOver(_, a) => a == agent
    case Install(other) => other != socket && other in t.handlers && t.handlers[other].agent == agent
    case Cleanup(other) => other == socket
    case Unregister(a) => a == agent
    case Close(_) => false
    case Sweep => socket in t.closed
  }

  /** The event installs the socket for the agent. */
  ghost predicate Stores(t: Table, e: Event, agent: string, socket: nat) {
    e == Install(socket) && socket in t.handlers && t.handlers[socket].agent == agent
  }

  ghost predicate HasEntry(t: Table, agent: string, socket: nat) {
    agent in t.conns && t.conns[agent] == socket
  }

  lemma EntryStep(t: Table, e: Event, agent: string, socket: nat)
    requires Inv(t) && Enabled(t, e)
    ensures HasEntry(Step(t, e), agent, socket) <==>
            Stores(t, e, agent, socket) || (HasEntry(t, agent, socket) && !Drops(t, e, agent, socket))
  {
  }

  ghost predicate StoredSince(tr: seq<Event>, ts: seq<Table>, i: int, k: int, agent: string, socket: nat)
    requires |ts| == |tr| + 1
  {
    && 0 <= i < k <= |tr| && Stores(ts[i], tr[i], agent, socket)
    && forall j :: i < j < k ==> !Drops(ts[j], tr[j], agent, socket)
  }

  lemma {:induction false} EntryHistory(tr: seq<Event>, ts: seq<Table>, k: nat, agent: string, socket: nat)
    returns (i: nat)
    requires Run(tr, ts) && k <= |tr| && HasEntry(ts[k], agent, socket)
    ensures StoredSince(tr, ts, i, k, agent, socket)
  {
    RunInv(tr, ts, k - 1);
    EntryStep(ts[k - 1], tr[k - 1], agent, socket);
    if Stores(ts[k - 1], tr[k - 1], agent, socket) {
      i := k - 1;
    } else {
      i := EntryHistory(tr, ts, k - 1, agent, socket);
    }
  }

  lemma {:induction false} StoredStays(tr: seq<Event>, ts: seq<Table>, i: nat, k: nat, agent: string, socket: nat)
    requires Run(tr, ts) && StoredSince(tr, ts, i, k, agent, socket)
    ensures HasEntry(ts[k], agent, socket)
    decreases k
  {
    RunInv(tr, ts, k - 1);
    EntryStep(ts[k - 1], tr[k - 1], agent, socket);
    if i < k - 1 {
      StoredStays(tr, ts, i, k - 1, agent, socket);
    }
  }

  /** In every interleaving an agent has the entry for a socket exactly when a handler of the agent
      has installed it and since then the agent was neither taken over, nor installed with another
      socket, nor unregistered, the handler has not cleaned up, and no sweep found the socket closed. */
  lemma EntriesExact(tr: seq<Event>, ts: seq<Table>, k: nat, agent: string, socket: nat)
    requires Run(tr, ts) && k <= |tr|
    ensures (agent in ts[k].conns && ts[k].conns[agent] == socket) <==>
            exists i :: StoredSince(tr, ts, i, k, agent, socket)
  {
    if HasEntry(ts[k], agent, socket) {
      var i := EntryHistory(tr, ts, k, agent, socket);
    }
    if i :| StoredSince(tr, ts, i, k, agent, socket) {
      StoredStays(tr, ts, i, k, agent, socket);
    }
  }

  /** A handler belongs to the agent it took over for. */
  lemma {:induction false} HandlerAgent(tr: seq<Event>, ts: seq<Table>, k: nat, socket: nat, agent: string)
    requires Run(tr, ts) && k <= |tr|
    ensures (socket in ts[k].handlers && ts[k].handlers[socket].agent == agent) <==>
            exists i :: 0 <= i < k && tr[i] == TakeOver(socket, agent)
  {
    if k > 0 {
      HandlerAgent(tr, ts, k - 1, socket, agent);
      TakenOverStep(ts[k - 1], tr[k - 1], socket, agent);
      if exists i :: 0 <= i < k - 1 && tr[i] == TakeOver(socket, agent) {
        assert socket in ts[k - 1].handlers;
      }
    }
  }

  lemma TakenOverStep(t: Table, e: Event, socket: nat, agent: string)
    requires Enabled(t, e)
    ensures (socket in Step(t, e).handlers && Step(t, e).handlers[socket].agent == agent) <==>
            (socket in t.handlers && t.handlers[socket].agent == agent) || e == TakeOver(socket, agent)
  {
  }

  // ---- the table itself -----------------------------------------------------------

  class ConnectionTable {
    var conns: map<string, nat>
    var closed: set<nat>
    ghost var handlers: map<nat, Handler>

    ghost function View(): Table
      reads this
    {
      Table(conns, handlers, closed)
    }

    constructor ()
      ensures View() == Table(map[], map[], {})
    {
      conns, closed, handlers := map[], {}, map[];
    }

    /** The first half of the connection setup; the old socket is closed while the new handler waits. */
    method BeginConnection(socket: nat, agent: string) returns (replaced: bool)
      requires Inv(View()) && Enabled(View(), TakeOver(socket, agent))
      modifies this
      ensures View() == Step(old(View()), TakeOver(socket, agent)) && Inv(View())
      ensures replaced <==> agent in old(conns) && old(conns)[agent] !in closed
    {
      StepKeeps(View(), TakeOver(socket, agent));
      replaced := agent in conns && conns[agent] !in closed;
      conns := conns - {agent};
      handlers := handlers[socket := Handler(agent, TakenOver)];
    }

    method FinishConnection(socket: nat, agent: string)
      requires Inv(View()) && Enabled(View(), Install(socket)) && handlers[socket].agent == agent
      modifies this
      ensures View() == Step(old(View()), Install(socket)) && Inv(View())
    {
      StepKeeps(View(), Install(socket));
      conns := conns[agent := socket];
      handlers := handlers[socket := Handler(agent, Installed)];
    }

    method EndConnection(socket: nat, agent: string)
      requires Inv(View()) && Enabled(View(), Cleanup(socket)) && handlers[socket].agent == agent
      modifies this
      ensures View() == Step(old(View()), Cleanup(socket)) && Inv(View())
    {
      StepKeeps(View(), Cleanup(socket));
      if agent in conns && conns[agent] == socket {
        conns := conns - {agent};
      }
      closed := closed + {socket};
      handlers := handlers[socket := Handler(agent, CleanedUp)];
    }

    /** The periodic cleanup task: collect the closed entries, then remove them one by one. */
    method SweepClosed()
      requires Inv(View())
      modifies this`conns
      ensures View() == Step(old(View()), Sweep) && Inv(View())
    {
      StepKeeps(View(), Sweep);
      var stale := set agent | agent in conns && conns[agent] in closed;
      ghost var before, all := conns, stale;
      while stale != {}
        invariant stale <= all
        invariant conns == map agent | agent in before && agent !in all - stale :: before[agent]
        decreases stale
      {
        var agent :| agent in stale;
        conns := conns - {agent};
        stale := stale - {agent};
      }
    }
  }
}
