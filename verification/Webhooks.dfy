/** Webhook subscriptions and their delivery, one event after the other (webhook_store.py). */
module Webhooks {
  import opened Common

  const MAX_CONSECUTIVE_FAILURES := 10
  const RETRY_DELAYS := [2, 4, 8]
  const MAX_ATTEMPTS := 4

  datatype Subscription = Subscription(url: string, events: seq<string>, tenant: string, createdAt: real,
                                       enabled: bool, retries: nat, failures: nat)

  datatype Status = Success | Failed

  function StatusOf(delivered: bool): Status {
    if delivered then Success else Failed
  }

  /** A row of the delivery log; the response code may be left over and is not modelled. */
  datatype LogRow = LogRow(subscription: string, event: string, status: Status, attempt: nat)

  datatype Store = Store(subs: map<string, Subscription>, log: seq<LogRow>)

  // ---- one round ------------------------------------------------------------------

  /** What a post comes to: an HTTP status, or an exception. */
  datatype Outcome = Response(code: int) | Raised

  predicate Accepted(o: Outcome) {
    o.Response? && 200 <= o.code < 300
  }

  /** How an endpoint answers the four possible attempts of a round. */
  type Endpoint = o: seq<Outcome> | |o| == MAX_ATTEMPTS witness [Raised, Raised, Raised, Raised]

  /** Attempts made in a round: up to the first accepted one. */
  function Attempts(o: Endpoint): (k: nat)
    ensures 1 <= k <= 4
    ensures forall i :: 0 <= i < k - 1 ==> !Accepted(o[i])
    ensures k < 4 ==> Accepted(o[k - 1])
  {
    if Accepted(o[0]) then 1 else if Accepted(o[1]) then 2 else if Accepted(o[2]) then 3 else 4
  }

  predicate Delivered(o: Endpoint) {
    Accepted(o[Attempts(o) - 1])
  }

  function SleepTotal(k: nat): nat
    requires k <= |RETRY_DELAYS|
  {
    if k == 0 then 0 else SleepTotal(k - 1) + RETRY_DELAYS[k - 1]
  }

  /** The rows a round adds: attempts 1, 2, ..., failed except for a delivered last one. */
  ghost predicate RoundLog(rows: seq<LogRow>, id: string, event: string, o: Endpoint) {
    && |rows| == Attempts(o)
    && (forall i :: 0 <= i < |rows| ==>
          rows[i] == LogRow(id, event, StatusOf(i == |rows| - 1 && Delivered(o)), i + 1))
  }

  /** A round is delivered exactly when some attempt of the endpoint is accepted. */
  lemma DeliveredExactly(o: Endpoint)
    ensures Delivered(o) <==> exists i :: 0 <= i < 4 && o[i].Response? && 200 <= o[i].code < 300
    ensures !Delivered(o) ==> Attempts(o) == 4
    ensures SleepTotal(Attempts(o) - 1) == [0, 2, 6, 14][Attempts(o) - 1]
  {
    assert SleepTotal(1) == 2 && SleepTotal(2) == 6 && SleepTotal(3) == 14;
    if exists i :: 0 <= i < MAX_ATTEMPTS && Accepted(o[i]) {
      var i :| 0 <= i < MAX_ATTEMPTS && Accepted(o[i]);
    }
  }

  // ---- the counter ----------------------------------------------------------------

  /** `_update_consecutive_failures`; an unknown subscription is ignored. */
  function Count(st: Store, id: string, succeeded: bool): Store {
    if id !in st.subs then st
    else
      var sub := st.subs[id];
      if succeeded then st.(subs := st.subs[id := sub.(failures := 0)])
      else
        var n := sub.failures + 1;
        st.(subs := st.subs[id := sub.(failures := n, retries := sub.retries + 1,
                                       enabled := sub.enabled && n < MAX_CONSECUTIVE_FAILURES)])
  }

  datatype Op =
    | Create(id: string, url: string, events: seq<string>, tenant: string, now: real)
    | Delete(id: string)
    | Enable(id: string)
    | Disable(id: string)

  /** An identifier is new: the insert would otherwise violate the primary key. */
  function Apply(st: Store, op: Op): Store {
    match op
    case Create(id, url, events, tenant, now) =>
      if id in st.subs then st else st.(subs := st.subs[id := Subscription(url, events, tenant, now, true, 0, 0)])
    case Delete(id) => Store(st.subs - {id}, Without(st.log, id))
    case Enable(id) =>
      if id in st.subs then st.(subs := st.subs[id := st.subs[id].(enabled := true, failures := 0)]) else st
    case Disable(id) => if id in st.subs then st.(subs := st.subs[id := st.subs[id].(enabled := false)]) else st
  }

  function Without(log: seq<LogRow>, id: string): seq<LogRow> {
    if log == [] then []
    else
      var n := |log| - 1;
      if log[n].subscription == id then Without(log[..n], id) else Without(log[..n], id) + [log[n]]
  }

  // ---- serial delivery ------------------------------------------------------------

  /** Serial use of the engine: events are delivered one after the other. `endpoints` tells how
      each subscription's endpoint answers during the delivery. */
  datatype Request =
    | Manage(op: Op)
    | Deliver(event: string, tenant: string, order: seq<string>, endpoints: map<string, Endpoint>)

  predicate Matches(sub: Subscription, event: string, tenant: string) {
    sub.enabled && (tenant == "" || sub.tenant == tenant) && event in sub.events
  }

  /** The ids of `get_subscriptions_for_event`, in the order in which the query returns the rows. */
  function Selected(st: Store, order: seq<string>, event: string, tenant: string): seq<string> {
    if order == [] then []
    else
      var n := |order| - 1;
      var rest := Selected(st, order[..n], event, tenant);
      if order[n] in st.subs && Matches(st.subs[order[n]], event, tenant) then rest + [order[n]] else rest
  }

  lemma {:induction false} SelectedExact(st: Store, order: seq<string>, event: string, tenant: string)
    ensures forall id :: id in Selected(st, order, event, tenant) <==>
            && id in order && id in st.subs && st.subs[id].enabled
            && (tenant == "" || st.subs[id].tenant == tenant) && event in st.subs[id].events
    ensures Distinct(order) ==> Distinct(Selected(st, order, event, tenant))
  {
    if order != [] {
      var n := |order| - 1;
      assert order == order[..n] + [order[n]];
      SelectedExact(st, order[..n], event, tenant);
    }
  }

  /** The selected rows keep the order of the query. */
  lemma {:induction false} SelectedInOrder(st: Store, first: seq<string>, second: seq<string>, event: string,
                                           tenant: string)
    ensures Selected(st, first + second, event, tenant) ==
            Selected(st, first, event, tenant) + Selected(st, second, event, tenant)
  {
    if second == [] {
      assert first + second == first;
    } else {
      var n := |second| - 1;
      assert (first + second)[..|first| + n] == first + second[..n];
      SelectedInOrder(st, first, second[..n], event, tenant);
    }
  }

  /** When the query returns every row of the table, the selected ones are exactly the matching
      subscriptions of the store. */
  lemma SelectedAll(st: Store, order: seq<string>, event: string, tenant: string)
    requires forall id :: id in order <==> id in st.subs
    ensures forall id :: id in Selected(st, order, event, tenant) <==>
            && id in st.subs && st.subs[id].enabled
            && (tenant == "" || st.subs[id].tenant == tenant) && event in st.subs[id].events
  {
    SelectedExact(st, order, event, tenant);
  }

  function RoundRows(id: string, event: string, o: Endpoint, k: nat): seq<LogRow>
    requires k <= Attempts(o)
  {
    if k == 0 then []
    else RoundRows(id, event, o, k - 1) + [LogRow(id, event, StatusOf(k == Attempts(o) && Delivered(o)), k)]
  }

  lemma {:induction false} RoundRowsExact(id: string, event: string, o: Endpoint, k: nat)
    requires k <= Attempts(o)
    ensures |RoundRows(id, event, o, k)| == k
    ensures forall i :: 0 <= i < k ==>
                        RoundRows(id, event, o, k)[i] ==
                            LogRow(id, event, StatusOf(i + 1 == Attempts(o) && Delivered(o)), i + 1)
  {
    if k > 0 {
      RoundRowsExact(id, event, o, k - 1);
    }
  }

  lemma RoundLogged(id: string, event: string, o: Endpoint)
    ensures RoundLog(RoundRows(id, event, o, Attempts(o)), id, event, o)
  {
    RoundRowsExact(id, event, o, Attempts(o));
  }

  /** The effect of one whole round on the store. */
  function Round(st: Store, id: string, event: string, o: Endpoint): Store {
    Count(st.(log := st.log + RoundRows(id, event, o, Attempts(o))), id, Delivered(o))
  }

  function Rounds(st: Store, ids: seq<string>, event: string, endpoints: map<string, Endpoint>): Store {
    if ids == [] then st
    else
      var n := |ids| - 1;
      Round(Rounds(st, ids[..n], event, endpoints), ids[n], event, Answers(endpoints, ids[n]))
  }

  /** An endpoint that is not described never answers. */
  function Answers(endpoints: map<string, Endpoint>, id: string): Endpoint {
    if id in endpoints then endpoints[id] else [Raised, Raised, Raised, Raised]
  }

  /** Posts that a delivery sends to one subscription. */
  function PostsIn(st: Store, r: Request, id: string): nat {
    if r.Deliver? && id in Selected(st, r.order, r.event, r.tenant) then Attempts(Answers(r.endpoints, id)) else 0
  }

  function Serve(st: Store, r: Request): Store {
    match r
    case Manage(op) => Apply(st, op)
    case Deliver(event, tenant, order, endpoints) => Rounds(st, Selected(st, order, event, tenant), event, endpoints)
  }

  function RunRequests(rs: seq<Request>): Store {
    if rs == [] then Store(map[], []) else Serve(RunRequests(rs[..|rs| - 1]), rs[|rs| - 1])
  }

  /** Posts to `id` since it was last enabled or created. */
  function PostsSinceEnable(rs: seq<Request>, id: string): nat {
    if rs == [] then 0
    else
      var n := |rs| - 1;
      var st := RunRequests(rs[..n]);
      if rs[n].Manage? && (rs[n].op.Enable? || (rs[n].op.Create? && id !in st.subs)) && rs[n].op.id == id then 0
      else PostsSinceEnable(rs[..n], id) + PostsIn(st, rs[n], id)
  }

  /** Each query returns a row once, and the endpoint of `id` never accepts a post. */
  ghost predicate NeverAccepts(rs: seq<Request>, id: string) {
    forall i :: 0 <= i < |rs| && rs[i].Deliver? ==> Distinct(rs[i].order) && !Delivered(Answers(rs[i].endpoints, id))
  }

  lemma RoundOn(st: Store, id: string, event: string, o: Endpoint, other: string)
    ensures var st' := Round(st, id, event, o);
            && (other in st'.subs <==> other in st.subs)
            && (other in st.subs ==>
                  st'.subs[other] == if other == id then Count(st, id, Delivered(o)).subs[id] else st.subs[other])
  {
  }

  lemma {:induction false} RoundsOn(st: Store, ids: seq<string>, event: string, endpoints: map<string, Endpoint>,
                                    id: string)
    requires Distinct(ids)
    ensures var st' := Rounds(st, ids, event, endpoints);
            && (id in st'.subs <==> id in st.subs)
            && (id in st.subs ==>
                  st'.subs[id] ==
                  if id in ids then Count(st, id, Delivered(Answers(endpoints, id))).subs[id] else st.subs[id])
  {
    if ids != [] {
      var n := |ids| - 1;
      assert ids == ids[..n] + [ids[n]];
      RoundsOn(st, ids[..n], event, endpoints, id);
      var before := Rounds(st, ids[..n], event, endpoints);
      assert Rounds(st, ids, event, endpoints) == Round(before, ids[n], event, Answers(endpoints, ids[n]));
      RoundOn(before, ids[n], event, Answers(endpoints, ids[n]), id);
      assert ids[n] !in ids[..n];
    }
  }

  /** While the endpoint accepts nothing, every round of an enabled subscription costs four posts
      and one failure. */
  lemma {:induction false} PostsPerFailure(rs: seq<Request>, id: string)
    requires NeverAccepts(rs, id) && id in RunRequests(rs).subs
    ensures var sub := RunRequests(rs).subs[id];
            && PostsSinceEnable(rs, id) == 4 * sub.failures
            && sub.failures <= 10
            && (sub.enabled ==> sub.failures < 10)
  {
    var n := |rs| - 1;
    var st := RunRequests(rs[..n]);
    var r := rs[n];
    assert NeverAccepts(rs[..n], id);
    match r {
      case Manage(op) =>
        if id in st.subs {
          PostsPerFailure(rs[..n], id);
        }
      case Deliver(event, tenant, order, endpoints) =>
        var ids := Selected(st, order, event, tenant);
        SelectedExact(st, order, event, tenant);
        assert Distinct(order) && !Delivered(Answers(endpoints, id));
        RoundsOn(st, ids, event, endpoints, id);
        PostsPerFailure(rs[..n], id);
    }
  }

  /** Under serial delivery an endpoint that never accepts a post receives at most 40 of them
      after each time its subscription is enabled or created. */
  lemma AtMostFortyPosts(rs: seq<Request>, id: string)
    requires NeverAccepts(rs, id) && id in RunRequests(rs).subs
    ensures PostsSinceEnable(rs, id) <= 40
  {
    PostsPerFailure(rs, id);
  }

  // ---- the objects ----------------------------------------------------------------

  class WebhookStore {
    var subs: map<string, Subscription>
    var log: seq<LogRow>

    function View(): Store
      reads this
    {
      Store(subs, log)
    }

    constructor ()
      ensures View() == Store(map[], [])
    {
      subs, log := map[], [];
    }

    method CreateSubscription(id: string, url: string, events: seq<string>, tenant: string, now: real)
      modifies this
      ensures View() == Apply(old(View()), Create(id, url, events, tenant, now))
    {
      if id !in subs {
        subs := subs[id := Subscription(url, events, tenant, now, true, 0, 0)];
      }
    }

    method DeleteSubscription(id: string) returns (deleted: bool)
      modifies this
      ensures View() == Apply(old(View()), Delete(id)) && deleted == (id in old(subs))
    {
      var kept: seq<LogRow> := [];
      for i := 0 to |log|
        invariant kept == Without(log[..i], id) && View() == old(View())
      {
        assert log[..i + 1][..i] == log[..i];
        if log[i].subscription != id {
          kept := kept + [log[i]];
        }
      }
      assert log[..|log|] == log;
      log := kept;
      deleted := id in subs;
      subs := subs - {id};
    }

    method EnableSubscription(id: string) returns (updated: bool)
      modifies this`subs
      ensures View() == Apply(old(View()), Enable(id)) && updated == (id in old(subs))
    {
      updated := id in subs;
      if updated {
        subs := subs[id := subs[id].(enabled := true, failures := 0)];
      }
    }

    method DisableSubscription(id: string) returns (updated: bool)
      modifies this`subs
      ensures View() == Apply(old(View()), Disable(id)) && updated == (id in old(subs))
    {
      updated := id in subs;
      if updated {
        subs := subs[id := subs[id].(enabled := false)];
      }
    }

    method SubscriptionsForEvent(order: seq<string>, event: string, tenant: string) returns (ids: seq<string>)
      ensures ids == Selected(View(), order, event, tenant)
    {
      ids := [];
      for i := 0 to |order|
        invariant ids == Selected(View(), order[..i], event, tenant)
      {
        assert order[..i + 1][..i] == order[..i];
        if order[i] in subs {
          var sub := subs[order[i]];
          if sub.enabled && (tenant == "" || sub.tenant == tenant) {
            if event in sub.events {
              ids := ids + [order[i]];
            }
          }
        }
      }
      assert order[..|order|] == order;
    }

    /** The insert of a row; it raises for an unknown subscription, which the row refers to. */
    method LogDelivery(id: string, event: string, status: Status, attempt: nat) returns (logged: bool)
      modifies this`log
      ensures logged == (id in subs)
      ensures log == if logged then old(log) + [LogRow(id, event, status, attempt)] else old(log)
    {
      logged := id in subs;
      if logged {
        log := log + [LogRow(id, event, status, attempt)];
      }
    }

    method UpdateConsecutiveFailures(id: string, succeeded: bool)
      modifies this`subs
      ensures View() == Count(old(View()), id, succeeded)
    {
      if id !in subs {
        return;
      }
      if succeeded {
        subs := subs[id := subs[id].(failures := 0)];
      } else {
        subs := subs[id := subs[id].(failures := subs[id].failures + 1, retries := subs[id].retries + 1)];
        if subs[id].failures >= MAX_CONSECUTIVE_FAILURES {
          subs := subs[id := subs[id].(enabled := false)];
        }
      }
    }
  }

  /** How a round ends: not begun for a disabled snapshot, with a status, or by an exception. */
  datatype RoundResult = Skipped | Ended(status: Status) | Thrown

  /** The results of the rounds of a delivery, one for each subscription. */
  function Results(ids: seq<string>, endpoints: map<string, Endpoint>): (results: seq<RoundResult>)
    ensures |results| == |ids|
    ensures forall i :: 0 <= i < |ids| ==> results[i] == Ended(StatusOf(Delivered(Answers(endpoints, ids[i]))))
  {
    if ids == [] then []
    else
      var n := |ids| - 1;
      Results(ids[..n], endpoints) + [Ended(StatusOf(Delivered(Answers(endpoints, ids[n]))))]
  }

  class WebhookDeliveryEngine {
    const store: WebhookStore

    constructor (store: WebhookStore)
      ensures this.store == store
    {
      this.store := store;
    }

    /** One delivery round, with nothing else at work on the store. `enabled` is the flag of the
        snapshot that the round was started with, and its subscription may be gone. */
    method DeliverToSubscription(id: string, enabled: bool, event: string, o: Endpoint)
      returns (result: RoundResult, slept: nat)
      modifies store
      ensures result == if !enabled then Skipped
                        else if id !in old(store.subs) then Thrown
                        else Ended(StatusOf(Delivered(o)))
      ensures !result.Ended? ==> store.View() == old(store.View()) && slept == 0
      ensures result.Ended? ==>
                && store.View() == Round(old(store.View()), id, event, o)
                && old(store.log) <= store.log
                && RoundLog(store.log[|old(store.log)|..], id, event, o)
                && slept == [0, 2, 6, 14][Attempts(o) - 1]
    {
      slept := 0;
      if !enabled {
        result := Skipped;
        return;
      }
      DeliveredExactly(o);
      RoundLogged(id, event, o);
      ghost var before := store.View();
      for attempt := 1 to MAX_ATTEMPTS + 1
        invariant forall i :: 0 <= i < attempt - 1 ==> !Accepted(o[i])
        invariant attempt - 1 <= Attempts(o)
        invariant attempt > 1 ==> id in before.subs
        invariant store.View() == before.(log := before.log + RoundRows(id, event, o, attempt - 1))
        invariant slept == SleepTotal(if attempt - 1 <= 3 then attempt - 1 else 3)
      {
        if Accepted(o[attempt - 1]) {
          assert attempt == Attempts(o);
          var delivered := store.LogDelivery(id, event, Success, attempt);
          if delivered {
            store.UpdateConsecutiveFailures(id, true);
            result := Ended(Success);
            return;
          }
        }
        var logged := store.LogDelivery(id, event, Failed, attempt);
        if !logged {
          result := Thrown;
          return;
        }
        if attempt < MAX_ATTEMPTS {
          slept := slept + RETRY_DELAYS[attempt - 1];
        }
      }
      store.UpdateConsecutiveFailures(id, false);
      result := Ended(Failed);
    }

    /** The loop of `deliver_event` over its snapshot, with nothing else at work. */
    method DeliverAll(ids: seq<string>, event: string, endpoints: map<string, Endpoint>)
      returns (results: seq<RoundResult>)
      requires forall id <- ids :: id in store.subs
      modifies store
      ensures store.View() == Rounds(old(store.View()), ids, event, endpoints)
      ensures results == Results(ids, endpoints)
    {
      ghost var before := store.View();
      results := [];
      for i := 0 to |ids|
        invariant store.View() == Rounds(before, ids[..i], event, endpoints)
        invariant forall id <- ids :: id in store.subs
        invariant results == Results(ids[..i], endpoints)
      {
        assert ids[..i + 1][..i] == ids[..i];
        var result, _ := DeliverToSubscription(ids[i], true, event, Answers(endpoints, ids[i]));
        results := results + [result];
      }
      assert ids[..|ids|] == ids;
    }

    /** Every selected subscription gets its round, one after the other. */
    method DeliverEvent(event: string, tenant: string, order: seq<string>, endpoints: map<string, Endpoint>)
      returns (results: seq<RoundResult>)
      modifies store
      ensures store.View() == Serve(old(store.View()), Deliver(event, tenant, order, endpoints))
      ensures results == Results(Selected(old(store.View()), order, event, tenant), endpoints)
    {
      SelectedExact(store.View(), order, event, tenant);
      var ids := store.SubscriptionsForEvent(order, event, tenant);
      results := DeliverAll(ids, event, endpoints);
    }
  }
}
