/** Webhook delivery under every interleaving: deliveries of several events are under way at once,
    each between two posts or in a sleep, while subscriptions come and go. */
module WebhookRuns {
  import opened Common
  import opened Webhooks

  /** A call of `deliver_event`: the snapshot it works through, the rounds it has finished, the
      attempts and the sleep of its present round, and whether an exception has ended it. */
  datatype Delivery = Delivery(event: string, ids: seq<string>, finished: seq<Status>,
                               attempts: nat, slept: nat, thrown: bool)

  /** A log row with the delivery and the round that wrote it. */
  datatype Row = Row(delivery: nat, round: nat, row: LogRow)

  datatype State = State(subs: map<string, Subscription>, log: seq<Row>, deliveries: map<nat, Delivery>)

  /** Answered is the stretch of code from the end of a post to the next post or sleep. */
  datatype Event =
    | Operate(op: Op)
    | Begin(delivery: nat, event: string, tenant: string, order: seq<string>)
    | Answered(delivery: nat, outcome: Outcome)

  function Plain(log: seq<Row>): seq<LogRow> {
    seq(|log|, i requires 0 <= i < |log| => log[i].row)
  }

  function View(s: State): Store {
    Store(s.subs, Plain(s.log))
  }

  /** The delivery waits for a post of its present round, or sleeps before it. */
  predicate Active(s: State, d: nat) {
    d in s.deliveries && !s.deliveries[d].thrown && |s.deliveries[d].finished| < |s.deliveries[d].ids|
  }

  function Current(s: State, d: nat): string
    requires Active(s, d)
  {
    s.deliveries[d].ids[|s.deliveries[d].finished|]
  }

  function Purge(log: seq<Row>, id: string): seq<Row> {
    if log == [] then []
    else
      var n := |log| - 1;
      Purge(log[..n], id) + if log[n].row.subscription == id then [] else [log[n]]
  }

  /** The answered post ends its round. */
  predicate EndsRound(v: Delivery, o: Outcome) {
    Accepted(o) || v.attempts + 1 >= MAX_ATTEMPTS
  }

  /** The log row of an answered post. */
  function RowFor(s: State, d: nat, o: Outcome): Row
    requires Active(s, d)
  {
    var v := s.deliveries[d];
    Row(d, |v.finished|, LogRow(Current(s, d), v.event, StatusOf(Accepted(o)), v.attempts + 1))
  }

  /** The delivery after a recorded answer. */
  function Next(v: Delivery, o: Outcome): Delivery {
    if EndsRound(v, o) then v.(finished := v.finished + [StatusOf(Accepted(o))], attempts := 0, slept := 0)
    else v.(attempts := v.attempts + 1, slept := v.slept + RETRY_DELAYS[v.attempts])
  }

  /** The row that refers to a deleted subscription cannot be inserted, and its exception ends the
      whole delivery. */
  function AnsweredStep(s: State, d: nat, o: Outcome): State
    requires Active(s, d)
  {
    var v, id := s.deliveries[d], Current(s, d);
    if id !in s.subs then s.(deliveries := s.deliveries[d := v.(thrown := true)])
    else
      State(if EndsRound(v, o) then Count(View(s), id, Accepted(o)).subs else s.subs,
            s.log + [RowFor(s, d, o)],
            s.deliveries[d := Next(v, o)])
  }

  /** Events that cannot happen change nothing. */
  function Step(s: State, e: Event): State {
    match e
    case Operate(op) =>
      s.(subs := Apply(View(s), op).subs, log := if op.Delete? then Purge(s.log, op.id) else s.log)
    case Begin(d, event, tenant, order) =>
      if d in s.deliveries then s
      else
        var ids := Selected(View(s), order, event, tenant);
        s.(deliveries := s.deliveries[d := Delivery(event, ids, [], 0, 0, false)])
    case Answered(d, o) => if Active(s, d) then AnsweredStep(s, d, o) else s
  }

  function Run(es: seq<Event>): State {
    if es == [] then State(map[], [], map[]) else Step(Run(es[..|es| - 1]), es[|es| - 1])
  }

  lemma RunAppend(es: seq<Event>, e: Event)
    ensures Run(es + [e]) == Step(Run(es), e)
  {
    assert (es + [e])[..|es|] == es;
  }

  // ---- rounds ---------------------------------------------------------------------

  /** The event is an answer to a post of round `n` of the delivery while its subscription exists. */
  predicate IsAnswer(s: State, e: Event, d: nat, n: nat) {
    && e.Answered? && e.delivery == d && Active(s, d)
    && |s.deliveries[d].finished| == n && Current(s, d) in s.subs
  }

  /** The answers that round `n` of a delivery got. */
  function Received(es: seq<Event>, d: nat, n: nat): seq<Outcome> {
    if es == [] then []
    else
      var m := |es| - 1;
      Received(es[..m], d, n) + if IsAnswer(Run(es[..m]), es[m], d, n) then [es[m].outcome] else []
  }

  ghost predicate NoneAccepted(p: seq<Outcome>) {
    forall i :: 0 <= i < |p| ==> !(p[i].Response? && 200 <= p[i].code < 300)
  }

  /** A round that has ended: up to four answers, of which only the last may be accepted, and one
      that has ended in failure had all four. */
  ghost predicate EndedRound(p: seq<Outcome>, status: Status) {
    && 1 <= |p| <= 4
    && NoneAccepted(p[..|p| - 1])
    && (status == Success <==> p[|p| - 1].Response? && 200 <= p[|p| - 1].code < 300)
    && (status == Failed ==> |p| == 4)
  }

  /** What a delivery knows about its round `n`. */
  ghost predicate RoundShape(v: Delivery, n: nat, p: seq<Outcome>) {
    && |v.finished| <= |v.ids|
    && (n < |v.finished| ==> EndedRound(p, v.finished[n]))
    && (n == |v.finished| ==> |p| == v.attempts < 4 && NoneAccepted(p))
    && (n > |v.finished| ==> p == [])
    && v.attempts < 4 && v.slept == [0, 2, 6, 14][v.attempts]
  }

  /** A delivery keeps its event and its snapshot, and only its own answers change it. */
  lemma SameDelivery(s: State, e: Event, d: nat)
    ensures d in Step(s, e).deliveries <==> d in s.deliveries || (e.Begin? && e.delivery == d)
    ensures d in s.deliveries ==>
              && Step(s, e).deliveries[d].ids == s.deliveries[d].ids
              && Step(s, e).deliveries[d].event == s.deliveries[d].event
              && (Step(s, e).deliveries[d] == s.deliveries[d] || (e.Answered? && e.delivery == d && Active(s, d)))
    ensures d !in s.deliveries && d in Step(s, e).deliveries ==>
              var v := Step(s, e).deliveries[d];
              v.finished == [] && v.attempts == 0 && v.slept == 0 && Step(s, e).log == s.log
  {
  }

  lemma ShortSleep(k: nat)
    requires k < MAX_ATTEMPTS
    ensures SleepTotal(k) == [0, 2, 6, 14][k]
  {
    assert SleepTotal(1) == 2 && SleepTotal(2) == 6 && SleepTotal(3) == 14;
  }

  lemma EndShape(v: Delivery, o: Outcome, n: nat, p: seq<Outcome>)
    requires RoundShape(v, n, p) && |v.finished| < |v.ids| && EndsRound(v, o)
    ensures RoundShape(Next(v, o), n, if n == |v.finished| then p + [o] else p)
  {
    if n == |v.finished| {
      var q := p + [o];
      assert q[..|q| - 1] == p && q[|q| - 1] == o;
      assert EndedRound(q, StatusOf(Accepted(o)));
    } else if n < |v.finished| {
      assert Next(v, o).finished[n] == v.finished[n];
    }
  }

  lemma RetryShape(v: Delivery, o: Outcome, n: nat, p: seq<Outcome>)
    requires RoundShape(v, n, p) && |v.finished| < |v.ids| && !EndsRound(v, o)
    ensures RoundShape(Next(v, o), n, if n == |v.finished| then p + [o] else p)
  {
    ShortSleep(v.attempts + 1);
  }

  lemma AnsweredShape(s: State, e: Event, d: nat, n: nat, p: seq<Outcome>)
    requires e.Answered? && e.delivery == d && Active(s, d) && RoundShape(s.deliveries[d], n, p)
    ensures RoundShape(Step(s, e).deliveries[d], n, if IsAnswer(s, e, d, n) then p + [e.outcome] else p)
  {
    var v := s.deliveries[d];
    if Current(s, d) !in s.subs {
      assert RoundShape(v.(thrown := true), n, p);
    } else if EndsRound(v, e.outcome) {
      EndShape(v, e.outcome, n, p);
    } else {
      RetryShape(v, e.outcome, n, p);
    }
  }

  lemma {:induction false} NotBegun(es: seq<Event>, d: nat, n: nat)
    requires d !in Run(es).deliveries
    ensures Received(es, d, n) == []
  {
    if es != [] {
      NotBegun(es[..|es| - 1], d, n);
    }
  }

  lemma ShapeStep(s: State, e: Event, d: nat, n: nat, p: seq<Outcome>)
    requires d in Step(s, e).deliveries
    requires if d in s.deliveries then RoundShape(s.deliveries[d], n, p) else p == []
    ensures RoundShape(Step(s, e).deliveries[d], n, if IsAnswer(s, e, d, n) then p + [e.outcome] else p)
  {
    SameDelivery(s, e, d);
    if e.Answered? && e.delivery == d && Active(s, d) {
      AnsweredShape(s, e, d, n, p);
    }
  }

  /** In every interleaving each round of each delivery got at most four answers, none accepted
      before the last; it has ended exactly with its first accepted answer or its fourth, with the
      status of that answer, and its sleeps add up to at most 14 seconds. */
  lemma {:induction false} RoundExact(es: seq<Event>, d: nat, n: nat)
    requires d in Run(es).deliveries
    ensures RoundShape(Run(es).deliveries[d], n, Received(es, d, n))
  {
    var m := |es| - 1;
    var p := Received(es[..m], d, n);
    assert Run(es) == Step(Run(es[..m]), es[m]);
    assert Received(es, d, n) == if IsAnswer(Run(es[..m]), es[m], d, n) then p + [es[m].outcome] else p;
    assert RoundShape(Run(es).deliveries[d], n, Received(es, d, n)) by {
      if d in Run(es[..m]).deliveries {
        RoundExact(es[..m], d, n);
      } else {
        NotBegun(es[..m], d, n);
      }
      ShapeStep(Run(es[..m]), es[m], d, n, p);
    }
  }

  // ---- deliveries that end early --------------------------------------------------

  /** The event is an answer to a post of the delivery whose subscription has been deleted. */
  predicate Misses(s: State, e: Event, d: nat) {
    e.Answered? && e.delivery == d && Active(s, d) && Current(s, d) !in s.subs
  }

  lemma ThrownStep(s: State, e: Event, d: nat)
    requires d in Step(s, e).deliveries
    ensures Step(s, e).deliveries[d].thrown <==> (d in s.deliveries && s.deliveries[d].thrown) || Misses(s, e, d)
  {
    SameDelivery(s, e, d);
  }

  /** Some answer of the run was a miss. */
  predicate Missed(es: seq<Event>, d: nat) {
    es != [] && (Missed(es[..|es| - 1], d) || Misses(Run(es[..|es| - 1]), es[|es| - 1], d))
  }

  lemma {:induction false} MissedAt(es: seq<Event>, d: nat, k: nat)
    requires k < |es| && Misses(Run(es[..k]), es[k], d)
    ensures Missed(es, d)
  {
    var m := |es| - 1;
    if k < m {
      assert es[..m][..k] == es[..k] && es[..m][k] == es[k];
      MissedAt(es[..m], d, k);
    }
  }

  lemma {:induction false} WhereMissed(es: seq<Event>, d: nat) returns (k: nat)
    requires Missed(es, d)
    ensures k < |es| && Misses(Run(es[..k]), es[k], d)
  {
    var m := |es| - 1;
    if Missed(es[..m], d) {
      k := WhereMissed(es[..m], d);
      assert es[..m][..k] == es[..k] && es[..m][k] == es[k];
    } else {
      k := m;
    }
  }

  lemma {:induction false} NotMissed(es: seq<Event>, d: nat)
    requires d !in Run(es).deliveries
    ensures !Missed(es, d)
  {
    if es != [] {
      var m := |es| - 1;
      SameDelivery(Run(es[..m]), es[m], d);
      NotMissed(es[..m], d);
    }
  }

  lemma {:induction false} ThrownMissed(es: seq<Event>, d: nat)
    requires d in Run(es).deliveries
    ensures Run(es).deliveries[d].thrown <==> Missed(es, d)
  {
    var m := |es| - 1;
    assert Run(es) == Step(Run(es[..m]), es[m]);
    assert Missed(es, d) <==> Missed(es[..m], d) || Misses(Run(es[..m]), es[m], d);
    assert Run(es).deliveries[d].thrown <==> Missed(es, d) by {
      if d in Run(es[..m]).deliveries {
        ThrownMissed(es[..m], d);
      } else {
        NotMissed(es[..m], d);
      }
      ThrownStep(Run(es[..m]), es[m], d);
    }
  }

  /** In every interleaving a delivery is ended by an exception exactly when a post of it was
      answered after the subscription of that post had been deleted, whether the deletion came
      during the round or at any time between the snapshot and the round. */
  lemma ThrownExactly(es: seq<Event>, d: nat)
    requires d in Run(es).deliveries
    ensures Run(es).deliveries[d].thrown <==> exists k :: 0 <= k < |es| && Misses(Run(es[..k]), es[k], d)
  {
    ThrownMissed(es, d);
    if Missed(es, d) {
      var k := WhereMissed(es, d);
    }
    if k :| 0 <= k < |es| && Misses(Run(es[..k]), es[k], d) {
      MissedAt(es, d, k);
    }
  }

  // ---- the log --------------------------------------------------------------------

  /** The rows of one round in the log, in order. */
  function RowsOf(log: seq<Row>, d: nat, n: nat): seq<LogRow> {
    if log == [] then []
    else
      var m := |log| - 1;
      RowsOf(log[..m], d, n) + if log[m].delivery == d && log[m].round == n then [log[m].row] else []
  }

  /** Rows 1, 2, ... for a series of answers. */
  function Numbered(id: string, event: string, p: seq<Outcome>): seq<LogRow> {
    seq(|p|, i requires 0 <= i < |p| =>
      LogRow(id, event, if p[i].Response? && 200 <= p[i].code < 300 then Success else Failed, i + 1))
  }

  predicate Deletes(e: Event, id: string) {
    e == Operate(Delete(id))
  }

  /** How many rows of a round the latest deletion of its subscription took from the log. */
  function Lost(es: seq<Event>, d: nat, n: nat): nat {
    if es == [] then 0
    else
      var m := |es| - 1;
      var s := Run(es[..m]);
      if d in s.deliveries && n < |s.deliveries[d].ids| && Deletes(es[m], s.deliveries[d].ids[n])
      then |Received(es[..m], d, n)|
      else Lost(es[..m], d, n)
  }

  lemma RowsAppend(log: seq<Row>, row: Row, d: nat, n: nat)
    ensures RowsOf(log + [row], d, n) ==
            RowsOf(log, d, n) + if row.delivery == d && row.round == n then [row.row] else []
  {
    assert (log + [row])[..|log|] == log;
  }

  lemma {:induction false} PurgedRows(log: seq<Row>, id: string, d: nat, n: nat, owner: string)
    requires forall r <- RowsOf(log, d, n) :: r.subscription == owner
    ensures RowsOf(Purge(log, id), d, n) == if id == owner then [] else RowsOf(log, d, n)
  {
    if log != [] {
      var m := |log| - 1;
      assert log == log[..m] + [log[m]];
      RowsAppend(log[..m], log[m], d, n);
      PurgedRows(log[..m], id, d, n, owner);
      if log[m].row.subscription == id {
        assert Purge(log, id) == Purge(log[..m], id);
      } else {
        RowsAppend(Purge(log[..m], id), log[m], d, n);
      }
    }
  }

  lemma {:induction false} NoRowsBefore(es: seq<Event>, d: nat, n: nat)
    requires d !in Run(es).deliveries
    ensures RowsOf(Run(es).log, d, n) == [] && Lost(es, d, n) == 0
  {
    if es != [] {
      var m := |es| - 1;
      var s, e := Run(es[..m]), es[m];
      NoRowsBefore(es[..m], d, n);
      if e.Operate? && e.op.Delete? {
        PurgedRows(s.log, e.op.id, d, n, e.op.id);
      } else if e.Answered? && Active(s, e.delivery) && Current(s, e.delivery) in s.subs {
        RowsAppend(s.log, RowFor(s, e.delivery, e.outcome), d, n);
      }
    }
  }

  lemma NumberedAppend(id: string, event: string, p: seq<Outcome>, o: Outcome, k: nat)
    requires k <= |p|
    ensures Numbered(id, event, p + [o])[k..] ==
            Numbered(id, event, p)[k..] + [LogRow(id, event, StatusOf(Accepted(o)), |p| + 1)]
  {
  }

  /** The log holds the rows of the answers `p` to a round, less the first `lost`. */
  ghost predicate LogShape(s: State, d: nat, n: nat, p: seq<Outcome>, lost: nat) {
    && d in s.deliveries && n < |s.deliveries[d].ids| && lost <= |p|
    && RowsOf(s.log, d, n) == Numbered(s.deliveries[d].ids[n], s.deliveries[d].event, p)[lost..]
  }

  lemma NumberedFrom(id: string, event: string, p: seq<Outcome>, k: nat)
    requires k <= |p|
    ensures Numbered(id, event, p)[|p|..] == []
    ensures forall r <- Numbered(id, event, p)[k..] :: r.subscription == id
  {
  }

  lemma StepLog(s: State, e: Event)
    ensures Step(s, e).log ==
            if e.Operate? && e.op.Delete? then Purge(s.log, e.op.id)
            else if e.Answered? && Active(s, e.delivery) && Current(s, e.delivery) in s.subs
            then s.log + [RowFor(s, e.delivery, e.outcome)]
            else s.log
  {
  }

  lemma DeletedRows(s: State, id: string, d: nat, n: nat, p: seq<Outcome>, lost: nat)
    requires LogShape(s, d, n, p, lost)
    ensures LogShape(Step(s, Operate(Delete(id))), d, n, p, if id == s.deliveries[d].ids[n] then |p| else lost)
  {
    var v := s.deliveries[d];
    NumberedFrom(v.ids[n], v.event, p, lost);
    PurgedRows(s.log, id, d, n, v.ids[n]);
  }

  lemma AnsweredRows(s: State, e: Event, d: nat, n: nat, p: seq<Outcome>, lost: nat)
    requires LogShape(s, d, n, p, lost) && (IsAnswer(s, e, d, n) ==> |p| == s.deliveries[d].attempts)
    requires e.Answered?
    ensures LogShape(Step(s, e), d, n, if IsAnswer(s, e, d, n) then p + [e.outcome] else p, lost)
  {
    var v := s.deliveries[d];
    SameDelivery(s, e, d);
    StepLog(s, e);
    if Active(s, e.delivery) && Current(s, e.delivery) in s.subs {
      RowsAppend(s.log, RowFor(s, e.delivery, e.outcome), d, n);
      NumberedAppend(v.ids[n], v.event, p, e.outcome, lost);
    }
  }

  lemma RowsStep(s: State, e: Event, d: nat, n: nat, p: seq<Outcome>, lost: nat)
    requires LogShape(s, d, n, p, lost) && (IsAnswer(s, e, d, n) ==> |p| == s.deliveries[d].attempts)
    ensures LogShape(Step(s, e), d, n, if IsAnswer(s, e, d, n) then p + [e.outcome] else p,
                     if Deletes(e, s.deliveries[d].ids[n]) then |p| else lost)
  {
    if e.Operate? && e.op.Delete? {
      DeletedRows(s, e.op.id, d, n, p, lost);
    } else if e.Answered? {
      AnsweredRows(s, e, d, n, p, lost);
    } else {
      SameDelivery(s, e, d);
      StepLog(s, e);
    }
  }

  /** In every interleaving the log holds, for each round, exactly the rows 1, 2, ... of the answers
      it got, less those that a deletion of its subscription took away. */
  lemma {:induction false} LogExact(es: seq<Event>, d: nat, n: nat)
    requires d in Run(es).deliveries && n < |Run(es).deliveries[d].ids|
    ensures LogShape(Run(es), d, n, Received(es, d, n), Lost(es, d, n))
  {
    var m := |es| - 1;
    var s, e := Run(es[..m]), es[m];
    assert Run(es) == Step(s, e);
    SameDelivery(s, e, d);
    if d !in s.deliveries {
      NotBegun(es[..m], d, n);
      NoRowsBefore(es[..m], d, n);
    } else {
      var p, lost := Received(es[..m], d, n), Lost(es[..m], d, n);
      assert Received(es, d, n) == if IsAnswer(s, e, d, n) then p + [e.outcome] else p;
      assert Lost(es, d, n) == if Deletes(e, s.deliveries[d].ids[n]) then |p| else lost;
      assert LogShape(Run(es), d, n, Received(es, d, n), Lost(es, d, n)) by {
        LogExact(es[..m], d, n);
        RoundExact(es[..m], d, n);
        RowsStep(s, e, d, n, p, lost);
      }
    }
  }

  lemma {:induction false} NothingLost(es: seq<Event>, d: nat, n: nat)
    requires d in Run(es).deliveries && n < |Run(es).deliveries[d].ids|
    requires forall i :: 0 <= i < |es| ==> !Deletes(es[i], Run(es).deliveries[d].ids[n])
    ensures Lost(es, d, n) == 0
  {
    var m := |es| - 1;
    if d in Run(es[..m]).deliveries {
      NothingLost(es[..m], d, n);
    } else {
      NoRowsBefore(es[..m], d, n);
    }
  }

  /** Rows 1..k with k at most 4, all failed except possibly the last, which carries the status of
      the round; a failed round has all four. */
  ghost predicate EndedRows(rows: seq<LogRow>, id: string, event: string, status: Status) {
    && 1 <= |rows| <= 4 && (status == Failed ==> |rows| == 4)
    && (forall i :: 0 <= i < |rows| ==> rows[i] == LogRow(id, event, if i == |rows| - 1 then status else Failed, i + 1))
  }

  lemma NumberedEnded(id: string, event: string, p: seq<Outcome>, status: Status)
    requires EndedRound(p, status)
    ensures EndedRows(Numbered(id, event, p), id, event, status)
  {
    assert forall i :: 0 <= i < |p| - 1 ==> p[i] == p[..|p| - 1][i];
  }

  /** In every interleaving an ended round whose subscription was not deleted has left exactly its
      rows in the log. Other deliveries, and other rounds of the same subscription, do not disturb
      them. */
  lemma EndedRoundRows(es: seq<Event>, d: nat, n: nat)
    requires d in Run(es).deliveries && n < |Run(es).deliveries[d].ids|
    requires forall i :: 0 <= i < |es| ==> !Deletes(es[i], Run(es).deliveries[d].ids[n])
    ensures var v := Run(es).deliveries[d];
            n < |v.finished| ==> EndedRows(RowsOf(Run(es).log, d, n), v.ids[n], v.event, v.finished[n])
  {
    RoundExact(es, d, n);
    LogExact(es, d, n);
    NothingLost(es, d, n);
    var v, p := Run(es).deliveries[d], Received(es, d, n);
    if n < |v.finished| {
      NumberedEnded(v.ids[n], v.event, p, v.finished[n]);
      assert Numbered(v.ids[n], v.event, p)[0..] == Numbered(v.ids[n], v.event, p);
    }
  }

  // ---- the counter ----------------------------------------------------------------

  /** The event ends a round of the subscription. */
  predicate EndsWith(s: State, e: Event, id: string, status: Status) {
    && e.Answered? && Active(s, e.delivery) && Current(s, e.delivery) == id && id in s.subs
    && var accepted := e.outcome.Response? && 200 <= e.outcome.code < 300;
    if status == Success then accepted else !accepted && s.deliveries[e.delivery].attempts >= 3
  }

  /** The subscription is created or enabled. */
  predicate Restarts(s: State, e: Event, id: string) {
    e.Operate? && e.op.id == id && (e.op.Enable? || (e.op.Create? && id !in s.subs))
  }

  /** The event makes the failure counter of the subscription start over. */
  predicate Resets(s: State, e: Event, id: string) {
    Restarts(s, e, id) || EndsWith(s, e, id, Success)
  }

  /** Failed rounds of `id` since the last success, enable or creation. */
  function FailedRounds(es: seq<Event>, id: string): nat {
    if es == [] then 0
    else
      var m := |es| - 1;
      var s := Run(es[..m]);
      if Resets(s, es[m], id) then 0
      else FailedRounds(es[..m], id) + if EndsWith(s, es[m], id, Failed) then 1 else 0
  }

  lemma CounterStep(s: State, e: Event, id: string)
    requires id in Step(s, e).subs
    ensures var sub := Step(s, e).subs[id];
            && (id !in s.subs ==> Resets(s, e, id))
            && sub.failures == (if Resets(s, e, id) then 0
                                else s.subs[id].failures + if EndsWith(s, e, id, Failed) then 1 else 0)
            && (sub.enabled && !Resets(s, e, id) ==>
                  && s.subs[id].enabled
                  && (sub.failures > s.subs[id].failures ==> sub.failures < 10))
  {
  }

  /** In every reachable state, however rounds overlap with each other and with the other
      operations, the counter is the number of failed rounds since the last success, enable or
      creation, and an enabled subscription has fewer than ten. */
  lemma {:induction false} CounterExact(es: seq<Event>, id: string)
    requires id in Run(es).subs
    ensures Run(es).subs[id].failures == FailedRounds(es, id)
    ensures Run(es).subs[id].enabled ==> Run(es).subs[id].failures < 10
  {
    var m := |es| - 1;
    CounterStep(Run(es[..m]), es[m], id);
    if id in Run(es[..m]).subs {
      CounterExact(es[..m], id);
    }
  }

  // ---- when a subscription is enabled -----------------------------------------------

  /** Since its latest enable or creation the subscription was disabled, or its failed rounds
      reached ten. */
  function Stopped(es: seq<Event>, id: string): bool {
    if es == [] then false
    else
      var m := |es| - 1;
      !Restarts(Run(es[..m]), es[m], id)
      && (Stopped(es[..m], id) || es[m] == Operate(Disable(id)) || FailedRounds(es, id) >= 10)
  }

  lemma EnabledStep(s: State, e: Event, id: string)
    requires id in s.subs && id in Step(s, e).subs
    ensures Step(s, e).subs[id].enabled <==>
            || Restarts(s, e, id)
            || (s.subs[id].enabled && e != Operate(Disable(id))
                && !(EndsWith(s, e, id, Failed) && s.subs[id].failures + 1 >= 10))
  {
  }

  lemma RestartEnables(s: State, e: Event, id: string)
    requires Restarts(s, e, id) && id in Step(s, e).subs
    ensures Step(s, e).subs[id].enabled
  {
  }

  /** In every interleaving an existing subscription is enabled exactly when, since its latest enable
      or creation, it was not disabled and its failed rounds did not reach ten. */
  lemma {:induction false} EnabledExact(es: seq<Event>, id: string)
    requires id in Run(es).subs
    ensures Run(es).subs[id].enabled <==> !Stopped(es, id)
  {
    var m := |es| - 1;
    var s, e := Run(es[..m]), es[m];
    assert Run(es) == Step(s, e);
    CounterStep(s, e, id);
    if Restarts(s, e, id) {
      RestartEnables(s, e, id);
    } else {
      EnabledExact(es[..m], id);
      CounterExact(es[..m], id);
      CounterExact(es, id);
      EnabledStep(s, e, id);
    }
  }

  /** The snapshot of a new delivery: the returned rows that are enabled, in the tenant and listen to
      the event. */
  lemma SnapshotExact(es: seq<Event>, d: nat, event: string, tenant: string, order: seq<string>)
    requires d !in Run(es).deliveries
    ensures var s, s' := Run(es), Run(es + [Begin(d, event, tenant, order)]);
            && d in s'.deliveries && s'.subs == s.subs && s'.log == s.log
            && s'.deliveries[d].event == event && s'.deliveries[d].finished == [] && !s'.deliveries[d].thrown
            && (forall id :: id in s'.deliveries[d].ids <==>
                  && id in order && id in s.subs && s.subs[id].enabled
                  && (tenant == "" || s.subs[id].tenant == tenant) && event in s.subs[id].events)
            && (Distinct(order) ==> Distinct(s'.deliveries[d].ids))
  {
    RunAppend(es, Begin(d, event, tenant, order));
    SelectedExact(View(Run(es)), order, event, tenant);
  }

  /** No delivery begun after a disable, and before the next enable or creation, has the subscription
      in its snapshot. */
  lemma DisabledNotSelected(es: seq<Event>, id: string, d: nat, event: string, tenant: string, order: seq<string>)
    requires Stopped(es, id) && d !in Run(es).deliveries
    ensures var s' := Run(es + [Begin(d, event, tenant, order)]); d in s'.deliveries && id !in s'.deliveries[d].ids
  {
    SnapshotExact(es, d, event, tenant, order);
    if id in Run(es).subs {
      EnabledExact(es, id);
    }
  }

  // ---- what a subscription holds ----------------------------------------------------

  /** The operation that created the present subscription; None when there is none. */
  function Creation(es: seq<Event>, id: string): Option<Op> {
    if es == [] then None
    else
      var m := |es| - 1;
      var before := Creation(es[..m], id);
      if es[m] == Operate(Delete(id)) then None
      else if before.None? && es[m].Operate? && es[m].op.Create? && es[m].op.id == id then Some(es[m].op)
      else before
  }

  /** Rounds of the present subscription that failed. */
  function AllFailedRounds(es: seq<Event>, id: string): nat {
    if es == [] then 0
    else
      var m := |es| - 1;
      if Creation(es[..m], id).None? then 0
      else AllFailedRounds(es[..m], id) + if EndsWith(Run(es[..m]), es[m], id, Failed) then 1 else 0
  }

  ghost predicate Holds(sub: Subscription, op: Op, failed: nat) {
    && op.Create? && sub.url == op.url && sub.events == op.events && sub.tenant == op.tenant
    && sub.createdAt == op.now && sub.retries == failed
  }

  lemma HoldsStep(s: State, e: Event, id: string)
    ensures id in Step(s, e).subs <==>
            e != Operate(Delete(id)) && (id in s.subs || (e.Operate? && e.op.Create? && e.op.id == id))
    ensures id in s.subs && id in Step(s, e).subs ==>
              Step(s, e).subs[id] ==
              s.subs[id].(enabled := Step(s, e).subs[id].enabled, failures := Step(s, e).subs[id].failures,
                          retries := s.subs[id].retries + if EndsWith(s, e, id, Failed) then 1 else 0)
    ensures id !in s.subs && id in Step(s, e).subs ==> Holds(Step(s, e).subs[id], e.op, 0)
  {
  }

  /** In every interleaving a subscription exists exactly from its creation to its deletion, keeps the
      url, events, tenant and time it was created with, and counts all its failed rounds. */
  lemma {:induction false} SubscriptionExact(es: seq<Event>, id: string)
    ensures id in Run(es).subs <==> Creation(es, id).Some?
    ensures id in Run(es).subs ==> Holds(Run(es).subs[id], Creation(es, id).value, AllFailedRounds(es, id))
  {
    if es != [] {
      var m := |es| - 1;
      assert Run(es) == Step(Run(es[..m]), es[m]);
      SubscriptionExact(es[..m], id);
      HoldsStep(Run(es[..m]), es[m], id);
    }
  }

  // ---- serial delivery ------------------------------------------------------------

  lemma PlainAppend(log: seq<Row>, row: Row)
    ensures Plain(log + [row]) == Plain(log) + [row.row]
  {
  }

  lemma {:induction false} PurgePlain(log: seq<Row>, id: string)
    ensures Plain(Purge(log, id)) == Without(Plain(log), id)
  {
    if log != [] {
      var m := |log| - 1;
      PurgePlain(log[..m], id);
      assert Plain(log)[..m] == Plain(log[..m]);
    }
  }

  /** An operation on subscriptions has its serial effect. */
  lemma OperateSerial(s: State, op: Op)
    ensures View(Step(s, Operate(op))) == Apply(View(s), op)
  {
    if op.Delete? {
      PurgePlain(s.log, op.id);
    }
  }

  /** The first `k` answers of an endpoint to a delivery, with nothing in between. */
  function AnswerAll(s: State, d: nat, o: Endpoint, k: nat): State
    requires k <= MAX_ATTEMPTS
  {
    if k == 0 then s else Step(AnswerAll(s, d, o, k - 1), Answered(d, o[k - 1]))
  }

  /** After `k` failed attempts of a round, with nothing in between. */
  ghost predicate Tried(s: State, s': State, d: nat, o: Endpoint, k: nat)
    requires Active(s, d) && k < Attempts(o)
  {
    var v := s.deliveries[d];
    && s'.subs == s.subs && Plain(s'.log) == Plain(s.log) + RoundRows(Current(s, d), v.event, o, k)
    && s'.deliveries == s.deliveries[d := v.(attempts := k, slept := SleepTotal(k))]
  }

  lemma OneAttempt(s: State, d: nat, o: Outcome)
    requires Active(s, d) && Current(s, d) in s.subs && !EndsRound(s.deliveries[d], o)
    ensures var v, s' := s.deliveries[d], Step(s, Answered(d, o));
            && s'.subs == s.subs && s'.deliveries == s.deliveries[d := Next(v, o)]
            && Plain(s'.log) == Plain(s.log) + [LogRow(Current(s, d), v.event, Failed, v.attempts + 1)]
  {
    PlainAppend(s.log, RowFor(s, d, o));
  }

  lemma {:induction false} SerialAttempts(s: State, d: nat, o: Endpoint, k: nat)
    requires Active(s, d) && s.deliveries[d].attempts == 0 && s.deliveries[d].slept == 0 && Current(s, d) in s.subs
    requires k < Attempts(o)
    ensures Tried(s, AnswerAll(s, d, o, k), d, o, k)
  {
    if k > 0 {
      SerialAttempts(s, d, o, k - 1);
      var before := AnswerAll(s, d, o, k - 1);
      assert Current(before, d) == Current(s, d);
      OneAttempt(before, d, o[k - 1]);
    }
  }

  lemma LastAnswer(s: State, d: nat, o: Outcome)
    requires Active(s, d) && Current(s, d) in s.subs && EndsRound(s.deliveries[d], o)
    ensures var s', row := AnsweredStep(s, d, o), RowFor(s, d, o).row;
            View(s') == Count(Store(s.subs, Plain(s.log) + [row]), Current(s, d), Accepted(o))
  {
    PlainAppend(s.log, RowFor(s, d, o));
  }

  lemma RoundEnds(s: State, last: State, d: nat, o: Endpoint)
    requires Active(s, d) && s.deliveries[d].attempts == 0 && s.deliveries[d].slept == 0 && Current(s, d) in s.subs
    requires Tried(s, last, d, o, Attempts(o) - 1)
    ensures var v, s' := s.deliveries[d], Step(last, Answered(d, o[Attempts(o) - 1]));
            && View(s') == Round(View(s), Current(s, d), v.event, o)
            && s'.deliveries == s.deliveries[d := v.(finished := v.finished + [StatusOf(Delivered(o))])]
  {
    var k := Attempts(o) - 1;
    var v, w := s.deliveries[d], last.deliveries[d];
    assert EndsRound(w, o[k]) && Active(last, d) && Current(last, d) == Current(s, d);
    LastAnswer(last, d, o[k]);
    assert RowFor(last, d, o[k]).row == LogRow(Current(s, d), v.event, StatusOf(Delivered(o)), k + 1);
  }

  /** A round with nothing in between has exactly the effect of the serial round. */
  lemma SerialRound(s: State, d: nat, o: Endpoint)
    requires Active(s, d) && s.deliveries[d].attempts == 0 && s.deliveries[d].slept == 0 && Current(s, d) in s.subs
    ensures var v, s' := s.deliveries[d], AnswerAll(s, d, o, Attempts(o));
            && View(s') == Round(View(s), Current(s, d), v.event, o)
            && s'.deliveries == s.deliveries[d := v.(finished := v.finished + [StatusOf(Delivered(o))])]
  {
    var k := Attempts(o) - 1;
    SerialAttempts(s, d, o, k);
    RoundEnds(s, AnswerAll(s, d, o, k), d, o);
  }

  /** The first `k` rounds of a delivery, with nothing in between. */
  function AnswerRounds(s: State, d: nat, endpoints: map<string, Endpoint>, k: nat): State {
    if k == 0 then s
    else
      var s' := AnswerRounds(s, d, endpoints, k - 1);
      if !Active(s', d) then s'
      else
        var o := Answers(endpoints, Current(s', d));
        AnswerAll(s', d, o, Attempts(o))
  }

  function Statuses(ids: seq<string>, endpoints: map<string, Endpoint>): seq<Status> {
    seq(|ids|, i requires 0 <= i < |ids| => StatusOf(Delivered(Answers(endpoints, ids[i]))))
  }

  /** After `k` rounds with nothing in between. */
  ghost predicate Served(s: State, d: nat, before: Store, v: Delivery, endpoints: map<string, Endpoint>, k: nat)
    requires k <= |v.ids|
  {
    && View(s) == Rounds(before, v.ids[..k], v.event, endpoints) && s.subs.Keys == before.subs.Keys
    && d in s.deliveries && s.deliveries[d] == v.(finished := Statuses(v.ids[..k], endpoints))
  }

  lemma ServedNext(s: State, d: nat, before: Store, v: Delivery, endpoints: map<string, Endpoint>, k: nat)
    requires k < |v.ids| && v.ids[k] in before.subs && v.attempts == 0 && v.slept == 0 && !v.thrown
    requires Served(s, d, before, v, endpoints, k)
    ensures Active(s, d) && Current(s, d) == v.ids[k]
    ensures var o := Answers(endpoints, v.ids[k]);
            Served(AnswerAll(s, d, o, Attempts(o)), d, before, v, endpoints, k + 1)
  {
    var o := Answers(endpoints, v.ids[k]);
    assert v.ids[..k + 1][..k] == v.ids[..k];
    assert Statuses(v.ids[..k + 1], endpoints) == Statuses(v.ids[..k], endpoints) + [StatusOf(Delivered(o))];
    SerialRound(s, d, o);
  }

  lemma {:induction false} SerialRounds(s: State, d: nat, endpoints: map<string, Endpoint>, k: nat)
    requires d in s.deliveries && k <= |s.deliveries[d].ids|
    requires var v := s.deliveries[d]; v.finished == [] && v.attempts == 0 && v.slept == 0 && !v.thrown
    requires forall id <- s.deliveries[d].ids :: id in s.subs
    ensures Served(AnswerRounds(s, d, endpoints, k), d, View(s), s.deliveries[d], endpoints, k)
  {
    if k > 0 {
      SerialRounds(s, d, endpoints, k - 1);
      ServedNext(AnswerRounds(s, d, endpoints, k - 1), d, View(s), s.deliveries[d], endpoints, k - 1);
    }
  }

  /** A whole delivery with nothing in between has exactly the effect of the serial one. */
  lemma SerialDelivery(s: State, d: nat, event: string, tenant: string, order: seq<string>,
                       endpoints: map<string, Endpoint>)
    requires d !in s.deliveries
    ensures var ids := Selected(View(s), order, event, tenant);
            var s' := AnswerRounds(Step(s, Begin(d, event, tenant, order)), d, endpoints, |ids|);
            && View(s') == Serve(View(s), Deliver(event, tenant, order, endpoints))
            && d in s'.deliveries && s'.deliveries[d].finished == Statuses(ids, endpoints)
  {
    var ids := Selected(View(s), order, event, tenant);
    SelectedExact(View(s), order, event, tenant);
    SerialRounds(Step(s, Begin(d, event, tenant, order)), d, endpoints, |ids|);
    assert ids[..|ids|] == ids;
  }

  lemma SelectBoth(s: State)
    requires "a" in s.subs && Matches(s.subs["a"], "e", "") && "b" in s.subs && Matches(s.subs["b"], "e", "")
    ensures Selected(View(s), ["a", "b"], "e", "") == ["a", "b"]
  {
    assert ["a", "b"][..1] == ["a"] && ["a"][..0] == [];
    assert Selected(View(s), ["a"], "e", "") == ["a"];
  }

  /** Deleting a subscription of a snapshot ends the whole delivery at its next answer: the
      subscriber after it gets no post. */
  lemma DeletionStopsDelivery() returns (es: seq<Event>)
    ensures |es| == 6 && es[4] == Operate(Delete("a")) && es[5] == Answered(0, Response(200))
    ensures "b" in Run(es).subs && Run(es).subs["b"].enabled
    ensures 0 in Run(es).deliveries && Run(es).deliveries[0].ids == ["a", "b"]
    ensures Run(es).deliveries[0].finished == [] && !Active(Run(es), 0)
  {
    var e0, e1 := Operate(Create("a", "u", ["e"], "", 0.0)), Operate(Create("b", "u", ["e"], "", 0.0));
    var e2, e3 := Begin(0, "e", "", ["a", "b"]), Answered(0, Raised);
    var e4, e5 := Operate(Delete("a")), Answered(0, Response(200));
    var es1 := [] + [e0];
    var es2 := es1 + [e1];
    var es3 := es2 + [e2];
    var es4 := es3 + [e3];
    var es5 := es4 + [e4];
    es := es5 + [e5];
    RunAppend([], e0);
    RunAppend(es1, e1);
    SelectBoth(Run(es2));
    RunAppend(es2, e2);
    RunAppend(es3, e3);
    RunAppend(es4, e4);
    RunAppend(es5, e5);
  }
}
