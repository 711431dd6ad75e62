/** Agent registration: the duplicate-name check of server.py over the agents table of store.py. */
module AgentNames {
  import opened Common

  const HEARTBEAT_PURGE := 300.0

  /** Python's strip() and lower(), kept abstract. */
  datatype Folding = Folding(strip: string -> string, lower: string -> string) {
    function Norm(name: string): string {
      lower(strip(name))
    }
  }

  datatype Agent = Agent(name: string, tenant: string, heartbeat: real, disabled: bool)

  type Table = map<string, Agent>

  /** A registration: the tenant of the token ("" for none or admin), the tenant of the body ("" when
      it has none, None when it is null), and the tenants of the card's interfaces in order. */
  datatype Registration = Registration(id: string, name: string, tokenTenant: string, bodyTenant: Option<string>,
                                       interfaceTenants: seq<Option<string>>, valid: bool, now: real)

  datatype Reply = Registered(id: string) | EmptyName | Invalid | AgentExists | DatabaseError

  /** The tenant filter of `list_agents`: a tenant shows its own agents and those without a tenant,
      the empty tenant only the latter, and no filter shows all. */
  predicate Listed(a: Agent, filter: Option<string>) {
    match filter
    case None => true
    case Some(tenant) => a.tenant == tenant || a.tenant == ""
  }

  function RequestTenant(r: Registration): Option<string> {
    if r.tokenTenant != "" then Some(r.tokenTenant) else r.bodyTenant
  }

  /** The filter of the duplicate check: an empty or null tenant checks against all agents. */
  function CheckFilter(r: Registration): Option<string> {
    if Truthy(RequestTenant(r)) then RequestTenant(r) else None
  }

  function FirstTenant(tenants: seq<Option<string>>): string {
    if tenants == [] then ""
    else if Truthy(tenants[0]) then tenants[0].value
    else FirstTenant(tenants[1..])
  }

  /** The tenant stored by `register_agent`; None is a null tenant, which the table refuses. */
  function StoredTenant(r: Registration): Option<string> {
    if Truthy(RequestTenant(r)) then RequestTenant(r)
    else if Truthy(r.bodyTenant) then r.bodyTenant
    else if FirstTenant(r.interfaceTenants) != "" then Some(FirstTenant(r.interfaceTenants))
    else r.bodyTenant
  }

  predicate Taken(f: Folding, t: Table, r: Registration) {
    exists id :: id in t && Listed(t[id], CheckFilter(r)) && f.Norm(t[id].name) == f.Norm(r.name)
  }

  function Answer(f: Folding, t: Table, r: Registration): Reply {
    if f.strip(r.name) == "" then EmptyName
    else if !r.valid then Invalid
    else if Taken(f, t, r) then AgentExists
    else if StoredTenant(r).None? then DatabaseError
    else Registered(r.id)
  }

  datatype Event =
    | Register(r: Registration)
    | Unregister(id: string, tenant: string)
    | Heartbeat(id: string, tenant: string, now: real)
    | Toggle(id: string, tenant: string)
    | Purge(now: real)

  predicate Reaches(t: Table, id: string, tenant: string) {
    id in t && (tenant == "" || t[id].tenant == tenant)
  }

  /** Ids are fresh UUIDs. */
  predicate Enabled(t: Table, e: Event) {
    e.Register? ==> e.r.id !in t
  }

  function Step(f: Folding, t: Table, e: Event): Table {
    match e
    case Register(r) =>
      if Answer(f, t, r).Registered? then t[r.id := Agent(r.name, StoredTenant(r).value, r.now, false)] else t
    case Unregister(id, tenant) => if Reaches(t, id, tenant) then t - {id} else t
    case Heartbeat(id, tenant, now) => if Reaches(t, id, tenant) then t[id := t[id].(heartbeat := now)] else t
    case Toggle(id, tenant) => if Reaches(t, id, tenant) then t[id := t[id].(disabled := !t[id].disabled)] else t
    case Purge(now) => map id | id in t && !(t[id].heartbeat > 0.0 && t[id].heartbeat < now - HEARTBEAT_PURGE) :: t[id]
  }

  ghost predicate Run(f: Folding, events: seq<Event>, ts: seq<Table>) {
    && |ts| == |events| + 1 && ts[0] == map[]
    && (forall i :: 0 <= i < |events| ==> Enabled(ts[i], events[i]) && ts[i + 1] == Step(f, ts[i], events[i]))
  }

  /** Two agents may share a name only in different tenants, neither of them empty. */
  ghost predicate Apart(f: Folding, a: Agent, b: Agent) {
    f.Norm(a.name) == f.Norm(b.name) ==> a.tenant != b.tenant && a.tenant != "" && b.tenant != ""
  }

  ghost predicate NamesApart(f: Folding, t: Table) {
    forall i, j :: i in t && j in t && i != j ==> Apart(f, t[i], t[j])
  }

  lemma RegisterKeeps(f: Folding, t: Table, r: Registration)
    requires NamesApart(f, t) && r.id !in t
    ensures NamesApart(f, Step(f, t, Register(r)))
  {
    var t' := Step(f, t, Register(r));
    if t' != t {
      forall i | i in t
        ensures Apart(f, t[i], t'[r.id]) && Apart(f, t'[r.id], t[i])
      {
        assert Listed(t[i], CheckFilter(r)) ==> f.Norm(t[i].name) != f.Norm(r.name);
      }
    }
  }

  lemma StepKeeps(f: Folding, t: Table, e: Event)
    requires NamesApart(f, t) && Enabled(t, e)
    ensures NamesApart(f, Step(f, t, e))
  {
    if e.Register? {
      RegisterKeeps(f, t, e.r);
    } else {
      var t' := Step(f, t, e);
      assert forall i :: i in t' ==> i in t && t'[i].name == t[i].name && t'[i].tenant == t[i].tenant;
      forall i, j | i in t' && j in t' && i != j
        ensures Apart(f, t'[i], t'[j])
      {
        assert Apart(f, t[i], t[j]);
      }
    }
  }

  /** From an empty store, in every run of registrations, unregistrations, heartbeats, toggles and
      purges, distinct agents with the same folded name have different, non-empty tenants, also
      when the tenant was finally taken from an interface. */
  lemma {:induction false} NamesStayApart(f: Folding, events: seq<Event>, ts: seq<Table>, k: nat)
    requires Run(f, events, ts) && k <= |events|
    ensures NamesApart(f, ts[k])
  {
    if k > 0 {
      NamesStayApart(f, events, ts, k - 1);
      StepKeeps(f, ts[k - 1], events[k - 1]);
    }
  }

  /** The table with the agent of a registration that passes. */
  function Inserted(t: Table, r: Registration): Table
    requires StoredTenant(r).Some?
  {
    t[r.id := Agent(r.name, StoredTenant(r).value, r.now, false)]
  }

  lemma TakenBreaks(f: Folding, t: Table, r: Registration)
    requires r.id !in t && Truthy(RequestTenant(r)) && Taken(f, t, r)
    ensures !NamesApart(f, Inserted(t, r))
  {
    var t' := Inserted(t, r);
    var i :| i in t && Listed(t[i], CheckFilter(r)) && f.Norm(t[i].name) == f.Norm(r.name);
    assert i in t' && r.id in t' && i != r.id;
    assert !Apart(f, t'[i], t'[r.id]);
  }

  lemma TakenBreaksDefault(f: Folding, t: Table, r: Registration)
    requires r.id !in t && StoredTenant(r) == Some("") && Taken(f, t, r)
    ensures !NamesApart(f, Inserted(t, r))
  {
    var t' := Inserted(t, r);
    var i :| i in t && Listed(t[i], CheckFilter(r)) && f.Norm(t[i].name) == f.Norm(r.name);
    assert i in t' && r.id in t' && i != r.id;
    assert !Apart(f, t'[i], t'[r.id]);
  }

  /** When the request names a tenant, or the agent gets none at all, a new name is refused exactly
      when storing it would break the invariant. */
  lemma CheckExact(f: Folding, t: Table, r: Registration)
    requires NamesApart(f, t) && r.id !in t && StoredTenant(r).Some?
    requires Truthy(RequestTenant(r)) || StoredTenant(r).value == ""
    ensures Taken(f, t, r) <==> !NamesApart(f, Inserted(t, r))
  {
    if !Taken(f, t, r) {
      var t' := Inserted(t, r);
      forall i, j | i in t' && j in t' && i != j
        ensures Apart(f, t'[i], t'[j])
      {
        if i != r.id && j != r.id {
          assert Apart(f, t[i], t[j]);
        } else {
          var k := if i == r.id then j else i;
          assert !(Listed(t[k], CheckFilter(r)) && f.Norm(t[k].name) == f.Norm(r.name));
        }
      }
    } else if Truthy(RequestTenant(r)) {
      TakenBreaks(f, t, r);
    } else {
      TakenBreaksDefault(f, t, r);
    }
  }

  /** A tenant that comes from an interface only: the check refuses a name that is taken in another
      tenant, although the two could live side by side. */
  lemma RefusesMore(f: Folding, r: Registration) returns (t: Table)
    requires !Truthy(RequestTenant(r)) && StoredTenant(r).Some? && StoredTenant(r).value != ""
    ensures NamesApart(f, t) && r.id !in t
    ensures Taken(f, t, r) && NamesApart(f, Inserted(t, r))
  {
    var other := r.id + "x";
    assert |other| == |r.id| + 1;
    var tenant := StoredTenant(r).value + "x";
    assert |tenant| == |StoredTenant(r).value| + 1;
    t := map[other := Agent(r.name, tenant, 0.0, false)];
    assert other in t && Listed(t[other], CheckFilter(r)) && f.Norm(t[other].name) == f.Norm(r.name);
  }

  /** The check refuses exactly the names that would break the invariant, whatever the table holds,
      if and only if the request names a tenant or the agent gets none. */
  lemma CheckExactly(f: Folding, r: Registration)
    requires StoredTenant(r).Some?
    ensures (forall t :: NamesApart(f, t) && r.id !in t ==> (Taken(f, t, r) <==> !NamesApart(f, Inserted(t, r)))) <==>
            Truthy(RequestTenant(r)) || StoredTenant(r).value == ""
  {
    if Truthy(RequestTenant(r)) || StoredTenant(r).value == "" {
      forall t | NamesApart(f, t) && r.id !in t
        ensures Taken(f, t, r) <==> !NamesApart(f, Inserted(t, r))
      {
        CheckExact(f, t, r);
      }
    } else {
      var t := RefusesMore(f, r);
    }
  }

  lemma {:induction false} NoFirstTenant(tenants: seq<Option<string>>)
    ensures FirstTenant(tenants) == "" <==> forall i :: 0 <= i < |tenants| ==> !Truthy(tenants[i])
  {
    if tenants != [] && !Truthy(tenants[0]) {
      NoFirstTenant(tenants[1..]);
      assert forall i :: 1 <= i < |tenants| ==> tenants[i] == tenants[1..][i - 1];
    }
  }

  /** A registration that passes every check is refused by the table exactly when the token names no
      tenant, the body's tenant is null and no interface has one. */
  lemma DatabaseErrorExactly(f: Folding, t: Table, r: Registration)
    ensures Answer(f, t, r) == DatabaseError <==>
            && f.strip(r.name) != "" && r.valid && !Taken(f, t, r)
            && r.tokenTenant == "" && r.bodyTenant == None
            && forall i :: 0 <= i < |r.interfaceTenants| ==> !Truthy(r.interfaceTenants[i])
  {
    NoFirstTenant(r.interfaceTenants);
  }

  // ---- what each event leaves behind ------------------------------------------------

  /** The name is already used by an agent that the request sees: in its own tenant or in none when
      it names a tenant, anywhere otherwise. */
  ghost predicate Duplicate(f: Folding, t: Table, r: Registration) {
    exists id :: && id in t && f.lower(f.strip(t[id].name)) == f.lower(f.strip(r.name))
                 && (if r.tokenTenant != "" then t[id].tenant in {r.tokenTenant, ""}
                     else if r.bodyTenant.Some? && r.bodyTenant.value != ""
                       then t[id].tenant in {r.bodyTenant.value, ""}
                     else true)
  }

  /** The answers in the order of the checks. */
  lemma AnswerExact(f: Folding, t: Table, r: Registration)
    ensures Answer(f, t, r) == EmptyName <==> f.strip(r.name) == ""
    ensures Answer(f, t, r) == Invalid <==> f.strip(r.name) != "" && !r.valid
    ensures Answer(f, t, r) == AgentExists <==> f.strip(r.name) != "" && r.valid && Duplicate(f, t, r)
    ensures Answer(f, t, r).Registered? ==> Answer(f, t, r).id == r.id
  {
    assert Taken(f, t, r) <==> Duplicate(f, t, r) by {
      if Taken(f, t, r) {
        var id :| id in t && Listed(t[id], CheckFilter(r)) && f.Norm(t[id].name) == f.Norm(r.name);
        assert id in t && f.lower(f.strip(t[id].name)) == f.lower(f.strip(r.name));
      }
      if Duplicate(f, t, r) {
        var id :| && id in t && f.lower(f.strip(t[id].name)) == f.lower(f.strip(r.name))
                  && (if r.tokenTenant != "" then t[id].tenant in {r.tokenTenant, ""}
                      else if r.bodyTenant.Some? && r.bodyTenant.value != ""
                        then t[id].tenant in {r.bodyTenant.value, ""}
                      else true);
        assert id in t && Listed(t[id], CheckFilter(r)) && f.Norm(t[id].name) == f.Norm(r.name);
      }
    }
  }

  lemma {:induction false} FirstTenantExact(tenants: seq<Option<string>>, i: nat)
    requires i < |tenants| && Truthy(tenants[i]) && forall j :: 0 <= j < i ==> !Truthy(tenants[j])
    ensures FirstTenant(tenants) == tenants[i].value
  {
    if i > 0 {
      assert forall j :: 0 <= j < i - 1 ==> tenants[1..][j] == tenants[j + 1];
      FirstTenantExact(tenants[1..], i - 1);
    }
  }

  /** A registration that is accepted stores the name as given, not disabled, seen now, in the tenant
      of the token, else of the body, else of the first interface that has one, else in none. */
  lemma RegisterExact(f: Folding, t: Table, r: Registration)
    ensures var t' := Step(f, t, Register(r));
            if !Answer(f, t, r).Registered? then t' == t
            else
              && r.id in t' && t'.Keys == t.Keys + {r.id} && (forall i :: i in t && i != r.id ==> t'[i] == t[i])
              && t'[r.id].name == r.name && t'[r.id].heartbeat == r.now && !t'[r.id].disabled
              && (if r.tokenTenant != "" then t'[r.id].tenant == r.tokenTenant
                  else if r.bodyTenant.Some? && r.bodyTenant.value != "" then t'[r.id].tenant == r.bodyTenant.value
                  else (exists i :: 0 <= i < |r.interfaceTenants| && r.interfaceTenants[i] == Some(t'[r.id].tenant)
                                    && t'[r.id].tenant != ""
                                    && forall j :: 0 <= j < i ==> r.interfaceTenants[j] in {None, Some("")})
                       || (t'[r.id].tenant == ""
                           && forall j :: 0 <= j < |r.interfaceTenants| ==> r.interfaceTenants[j] in {None, Some("")}))
  {
    NoFirstTenant(r.interfaceTenants);
    if FirstTenant(r.interfaceTenants) != "" {
      var i := FirstTruthy(r.interfaceTenants);
      FirstTenantExact(r.interfaceTenants, i);
    }
  }

  lemma {:induction false} FirstTruthy(tenants: seq<Option<string>>) returns (i: nat)
    requires exists j :: 0 <= j < |tenants| && Truthy(tenants[j])
    ensures i < |tenants| && Truthy(tenants[i]) && forall j :: 0 <= j < i ==> !Truthy(tenants[j])
  {
    if Truthy(tenants[0]) {
      i := 0;
    } else {
      var j :| 0 <= j < |tenants| && Truthy(tenants[j]);
      assert tenants[1..][j - 1] == tenants[j];
      i := FirstTruthy(tenants[1..]);
      i := i + 1;
    }
  }

  /** Unregistering removes one agent within reach of the tenant; heartbeats and toggles change only
      their field of one agent within reach; a purge removes the agents whose positive heartbeat is
      more than 300 seconds old. All other agents stay as they are. */
  lemma UpdateExact(f: Folding, t: Table, id: string, tenant: string, now: real, i: string)
    requires i in t
    ensures var reached := i == id && (tenant == "" || t[i].tenant == tenant);
            && (var t' := Step(f, t, Unregister(id, tenant));
                t'.Keys <= t.Keys && (i in t' <==> !reached) && (i in t' ==> t'[i] == t[i]))
            && (var t' := Step(f, t, Heartbeat(id, tenant, now));
                t'.Keys == t.Keys && t'[i] == if reached then t[i].(heartbeat := now) else t[i])
            && (var t' := Step(f, t, Toggle(id, tenant));
                t'.Keys == t.Keys && t'[i] == if reached then t[i].(disabled := !t[i].disabled) else t[i])
            && (var t' := Step(f, t, Purge(now));
                && t'.Keys <= t.Keys && (i in t' ==> t'[i] == t[i])
                && (i in t' <==> !(t[i].heartbeat > 0.0 && t[i].heartbeat < now - 300.0)))
  {
  }

  const LITERAL := Folding(x => x, x => x)

  /** The smallest such registration. */
  lemma NullTenantRefused()
    ensures Answer(LITERAL, map[], Registration("a", "n", "", None, [], true, 0.0)) == DatabaseError
  {
  }

  function Stale(t: Table, now: real): set<string> {
    set id | id in t && t[id].heartbeat > 0.0 && t[id].heartbeat < now - HEARTBEAT_PURGE
  }

  lemma PurgeStep(f: Folding, t: Table, now: real)
    ensures Step(f, t, Purge(now)) == t - Stale(t, now)
    ensures |t - Stale(t, now)| == |t| - |Stale(t, now)|
  {
    var stale := Stale(t, now);
    assert |t.Keys - stale| == |t.Keys| - |stale|;
    assert (t - stale).Keys == t.Keys - stale;
  }

  // ---- the object -----------------------------------------------------------------

  class Registry {
    const fold: Folding
    var agents: Table

    constructor (fold: Folding)
      ensures this.fold == fold && agents == map[]
    {
      this.fold := fold;
      agents := map[];
    }

    method ListAgents(filter: Option<string>) returns (ids: set<string>)
      ensures ids == set id | id in agents && Listed(agents[id], filter)
      ensures forall id :: id in ids <==>
                id in agents && (filter.None? || agents[id].tenant == filter.value || agents[id].tenant == "")
    {
      ids := {};
      var todo := agents.Keys;
      while todo != {}
        invariant todo <= agents.Keys
        invariant ids == set id | id in agents.Keys - todo && Listed(agents[id], filter)
        decreases todo
      {
        var id :| id in todo;
        var a := agents[id];
        if filter.None? || (filter.value == "" && a.tenant == "")
          || (filter.value != "" && (a.tenant == filter.value || a.tenant == "")) {
          ids := ids + {id};
        }
        todo := todo - {id};
      }
    }

    /** `register_agent`: the loop over the interfaces stops at the first with a tenant. */
    method RegisterAgent(r: Registration, tenant: Option<string>) returns (inserted: bool)
      requires tenant == RequestTenant(r)
      modifies this
      ensures inserted == StoredTenant(r).Some?
      ensures agents == if inserted then old(agents)[r.id := Agent(r.name, StoredTenant(r).value, r.now, false)]
                        else old(agents)
    {
      var stored := tenant;
      if !Truthy(stored) {
        stored := r.bodyTenant;
        if !Truthy(stored) {
          var i := 0;
          while i < |r.interfaceTenants| && !Truthy(stored)
            invariant 0 <= i <= |r.interfaceTenants|
            invariant !Truthy(stored) ==> stored == r.bodyTenant
            invariant FirstTenant(r.interfaceTenants) ==
                      if Truthy(stored) then stored.value else FirstTenant(r.interfaceTenants[i..])
          {
            if Truthy(r.interfaceTenants[i]) {
              stored := r.interfaceTenants[i];
            }
            i := i + 1;
          }
        }
      }
      inserted := stored.Some?;
      if inserted {
        agents := agents[r.id := Agent(r.name, stored.value, r.now, false)];
      }
    }

    method HandleRegister(r: Registration) returns (reply: Reply)
      requires NamesApart(fold, agents) && r.id !in agents
      modifies this
      ensures agents == Step(fold, old(agents), Register(r)) && NamesApart(fold, agents)
      ensures reply == Answer(fold, old(agents), r)
    {
      RegisterKeeps(fold, agents, r);
      if fold.strip(r.name) == "" {
        return EmptyName;
      }
      if !r.valid {
        return Invalid;
      }
      var tenant := if r.tokenTenant != "" then Some(r.tokenTenant) else r.bodyTenant;
      var existing := ListAgents(if Truthy(tenant) then tenant else None);
      ghost var all := existing;
      while existing != {}
        invariant existing <= all
        invariant forall id :: id in all - existing ==> fold.Norm(agents[id].name) != fold.Norm(r.name)
        invariant agents == old(agents)
        decreases existing
      {
        var id :| id in existing;
        if fold.lower(fold.strip(agents[id].name)) == fold.lower(fold.strip(r.name)) {
          return AgentExists;
        }
        existing := existing - {id};
      }
      var inserted := RegisterAgent(r, tenant);
      reply := if inserted then Registered(r.id) else DatabaseError;
    }

    method PurgeStale(now: real) returns (removed: nat)
      requires NamesApart(fold, agents)
      modifies this
      ensures agents == Step(fold, old(agents), Purge(now)) && NamesApart(fold, agents)
      ensures removed == |old(agents)| - |agents|
    {
      StepKeeps(fold, agents, Purge(now));
      PurgeStep(fold, agents, now);
      var cutoff := now - HEARTBEAT_PURGE;
      var stale := set id | id in agents && agents[id].heartbeat > 0.0 && agents[id].heartbeat < cutoff;
      assert stale == Stale(agents, now);
      removed := |stale|;
      agents := agents - stale;
    }

    method Unregister(id: string, tenant: string) returns (removed: bool)
      requires NamesApart(fold, agents)
      modifies this
      ensures agents == Step(fold, old(agents), Event.Unregister(id, tenant)) && NamesApart(fold, agents)
      ensures removed == Reaches(old(agents), id, tenant)
    {
      StepKeeps(fold, agents, Event.Unregister(id, tenant));
      removed := id in agents && (tenant == "" || agents[id].tenant == tenant);
      if removed {
        agents := agents - {id};
      }
    }
  }
}
