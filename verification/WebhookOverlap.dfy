/** How many posts an endpoint that accepts nothing receives when deliveries overlap. */
module WebhookOverlap {
  import opened Common
  import opened Webhooks
  import opened WebhookRuns

  /** The delivery still has its round for the subscription before it or under way. */
  predicate Waits(s: State, d: nat, id: string) {
    Active(s, d) && id in s.deliveries[d].ids[|s.deliveries[d].finished|..]
  }

  function Pending(s: State, id: string): set<nat> {
    set d | d in s.deliveries && Waits(s, d, id)
  }

  /** The event answers a post to the subscription. */
  predicate PostsTo(s: State, e: Event, id: string) {
    e.Answered? && Active(s, e.delivery) && Current(s, e.delivery) == id && id in s.subs
  }

  /** Posts to the subscription since it was last enabled or created. */
  function PostsSince(es: seq<Event>, id: string): nat {
    if es == [] then 0
    else
      var m := |es| - 1;
      if Restarts(Run(es[..m]), es[m], id) then 0
      else PostsSince(es[..m], id) + if PostsTo(Run(es[..m]), es[m], id) then 1 else 0
  }

  /** The same posts, each told apart by its delivery and its number in the round. */
  function Posts(es: seq<Event>, id: string): set<(nat, nat)> {
    if es == [] then {}
    else PostsAfter(Run(es[..|es| - 1]), es[|es| - 1], id, Posts(es[..|es| - 1], id))
  }

  function PostsAfter(s: State, e: Event, id: string, posts: set<(nat, nat)>): set<(nat, nat)> {
    if Restarts(s, e, id) then {}
    else if PostsTo(s, e, id) then posts + {(e.delivery, s.deliveries[e.delivery].attempts)}
    else posts
  }

  /** The deliveries that have posted to the subscription and have its round behind them. */
  function Over(s: State, posts: set<(nat, nat)>, id: string): set<nat> {
    set p | p in posts && !Waits(s, p.0, id) :: p.0
  }

  // ---- the invariant --------------------------------------------------------------

  /** Each delivery works through distinct subscriptions, at most four attempts each. */
  ghost predicate Regular(s: State) {
    forall d :: d in s.deliveries ==>
                  var v := s.deliveries[d];
                  Distinct(v.ids) && |v.finished| <= |v.ids| && v.attempts < MAX_ATTEMPTS
  }

  /** A post of a delivery that still waits belongs to its present round. */
  ghost predicate Tagged(s: State, posts: set<(nat, nat)>, id: string) {
    forall p <- posts ::
      p.1 < MAX_ATTEMPTS && (Waits(s, p.0, id) ==> Current(s, p.0) == id && p.1 < s.deliveries[p.0].attempts)
  }

  /** Rounds that are over have been counted as failures; failures and waiting deliveries together
      stay below ten plus the overlap. */
  ghost predicate Tallied(s: State, posts: set<(nat, nat)>, id: string, overlap: nat)
    requires id in s.subs
  {
    && Tagged(s, posts, id)
    && |Over(s, posts, id)| <= s.subs[id].failures
    && s.subs[id].failures + |Pending(s, id)| < MAX_CONSECUTIVE_FAILURES + overlap
  }

  lemma Subset<T>(a: set<T>, b: set<T>)
    requires a <= b
    ensures |a| <= |b|
  {
    assert b == a + (b - a);
  }

  lemma WaitsSame(s: State, s': State, d: nat, id: string)
    requires d in s.deliveries <==> d in s'.deliveries
    requires d in s.deliveries ==> s.deliveries[d] == s'.deliveries[d]
    ensures Waits(s, d, id) <==> Waits(s', d, id)
    ensures Waits(s, d, id) ==> Current(s, d) == Current(s', d)
  {
  }

  lemma SameDeliveries(s: State, s': State, posts: set<(nat, nat)>, id: string, overlap: nat)
    requires id in s.subs && id in s'.subs && s.subs[id].failures == s'.subs[id].failures
    requires s.deliveries == s'.deliveries && Tallied(s, posts, id, overlap)
    ensures Tallied(s', posts, id, overlap)
  {
    forall d {
      WaitsSame(s, s', d, id);
    }
    assert Pending(s', id) == Pending(s, id) && Over(s', posts, id) == Over(s, posts, id);
  }

  lemma RestartTally(s: State, e: Event, id: string, overlap: nat)
    requires Restarts(s, e, id) && |Pending(Step(s, e), id)| <= overlap && id in Step(s, e).subs
    ensures Tallied(Step(s, e), {}, id, overlap)
  {
    assert Over(Step(s, e), {}, id) == {};
  }

  lemma BeginTally(s: State, e: Event, posts: set<(nat, nat)>, id: string, overlap: nat)
    requires e.Begin? && id in s.subs && Tallied(s, posts, id, overlap)
    requires |Pending(Step(s, e), id)| <= overlap
    requires s.subs[id].enabled ==> s.subs[id].failures < MAX_CONSECUTIVE_FAILURES
    requires forall p <- posts :: p.0 in s.deliveries
    ensures Tallied(Step(s, e), posts, id, overlap)
  {
    var s' := Step(s, e);
    SelectedExact(View(s), e.order, e.event, e.tenant);
    forall d | d in s.deliveries
      ensures Waits(s, d, id) <==> Waits(s', d, id)
    {
      WaitsSame(s, s', d, id);
    }
    assert Over(s', posts, id) == Over(s, posts, id);
    if !s.subs[id].enabled {
      assert Pending(s', id) == Pending(s, id);
    }
  }

  /** The answered delivery does not wait for the subscription any more. */
  lemma DoneTally(s: State, s': State, d: nat, k: nat, posts: set<(nat, nat)>, id: string, overlap: nat)
    requires id in s.subs && id in s'.subs && Tallied(s, posts, id, overlap) && k < MAX_ATTEMPTS
    requires Waits(s, d, id) && !Waits(s', d, id) && s'.subs[id].failures == s.subs[id].failures + 1
    requires forall c :: c != d ==> (c in s.deliveries <==> c in s'.deliveries)
    requires forall c :: c != d && c in s.deliveries ==> s'.deliveries[c] == s.deliveries[c]
    ensures Tallied(s', posts + {(d, k)}, id, overlap)
  {
    var posts' := posts + {(d, k)};
    forall c | c != d
      ensures Waits(s, c, id) <==> Waits(s', c, id)
      ensures Waits(s, c, id) ==> Current(s, c) == Current(s', c)
    {
      WaitsSame(s, s', c, id);
    }
    assert Pending(s', id) == Pending(s, id) - {d} && d in Pending(s, id);
    Subset(Over(s', posts', id), Over(s, posts, id) + {d});
  }

  /** The answered delivery still waits for the subscription, or never did. */
  lemma OnwardTally(s: State, s': State, d: nat, posts: set<(nat, nat)>, posts': set<(nat, nat)>, id: string,
                    overlap: nat)
    requires id in s.subs && id in s'.subs && Tallied(s, posts, id, overlap)
    requires (Waits(s, d, id) <==> Waits(s', d, id)) && s'.subs[id].failures == s.subs[id].failures
    requires forall c :: c != d ==> (c in s.deliveries <==> c in s'.deliveries)
    requires forall c :: c != d && c in s.deliveries ==> s'.deliveries[c] == s.deliveries[c]
    requires posts <= posts' && forall p <- posts' - posts :: p.0 == d && Waits(s', d, id)
    requires forall p <- posts' :: p.0 == d && Waits(s', d, id) ==>
             Current(s', d) == id && p.1 < s'.deliveries[d].attempts
    requires forall p <- posts' :: p.1 < MAX_ATTEMPTS
    ensures Tallied(s', posts', id, overlap)
  {
    forall c
      ensures Waits(s, c, id) <==> Waits(s', c, id)
      ensures c != d && Waits(s, c, id) ==> Current(s, c) == Current(s', c)
    {
      if c != d {
        WaitsSame(s, s', c, id);
      }
    }
    assert Pending(s', id) == Pending(s, id);
    Subset(Over(s', posts', id), Over(s, posts, id));
  }

  lemma RoundTally(s: State, e: Event, posts: set<(nat, nat)>, id: string, overlap: nat)
    requires PostsTo(s, e, id) && !Accepted(e.outcome) && Regular(s) && Tallied(s, posts, id, overlap)
    ensures id in Step(s, e).subs && Tallied(Step(s, e), posts + {(e.delivery, s.deliveries[e.delivery].attempts)},
                                             id, overlap)
  {
    var d, v, s' := e.delivery, s.deliveries[e.delivery], Step(s, e);
    var n := |v.finished|;
    assert v.ids[n..][0] == id;
    if EndsRound(v, e.outcome) {
      assert forall i :: n < i < |v.ids| ==> v.ids[i] != id;
      DoneTally(s, s', d, v.attempts, posts, id, overlap);
    } else {
      OnwardTally(s, s', d, posts, posts + {(d, v.attempts)}, id, overlap);
    }
  }

  /** The answer of another subscription's post, or of a deleted one's. */
  lemma OtherTally(s: State, e: Event, posts: set<(nat, nat)>, id: string, overlap: nat)
    requires e.Answered? && Active(s, e.delivery) && Current(s, e.delivery) != id && id in s.subs
    requires Regular(s) && Tallied(s, posts, id, overlap)
    ensures id in Step(s, e).subs && Tallied(Step(s, e), posts, id, overlap)
  {
    var d, v, s' := e.delivery, s.deliveries[e.delivery], Step(s, e);
    var n := |v.finished|;
    assert s'.subs[id] == s.subs[id];
    if Current(s, d) !in s.subs {
      ThrownTally(s, s', d, posts, id, overlap);
    } else {
      assert v.ids[n..] == [v.ids[n]] + v.ids[n + 1..];
      OnwardTally(s, s', d, posts, posts, id, overlap);
    }
  }

  lemma ThrownTally(s: State, s': State, d: nat, posts: set<(nat, nat)>, id: string, overlap: nat)
    requires id in s.subs && Active(s, d) && Current(s, d) != id && Tallied(s, posts, id, overlap)
    requires s' == s.(deliveries := s.deliveries[d := s.deliveries[d].(thrown := true)])
    ensures Tallied(s', posts, id, overlap)
  {
    forall c | c != d
      ensures Waits(s, c, id) <==> Waits(s', c, id)
      ensures Waits(s, c, id) ==> Current(s, c) == Current(s', c)
    {
      WaitsSame(s, s', c, id);
    }
    Subset(Pending(s', id), Pending(s, id));
    assert Over(s', posts, id) == Over(s, posts, id);
  }

  lemma TallyStep(s: State, e: Event, posts: set<(nat, nat)>, id: string, overlap: nat)
    requires Regular(s) && id in Step(s, e).subs && |Pending(Step(s, e), id)| <= overlap
    requires id in s.subs ==> Tallied(s, posts, id, overlap)
    requires id in s.subs && s.subs[id].enabled ==> s.subs[id].failures < MAX_CONSECUTIVE_FAILURES
    requires forall p <- posts :: p.0 in s.deliveries
    requires PostsTo(s, e, id) ==> !Accepted(e.outcome)
    ensures Tallied(Step(s, e), PostsAfter(s, e, id, posts), id, overlap)
  {
    if Restarts(s, e, id) {
      RestartTally(s, e, id, overlap);
    } else if e.Begin? {
      BeginTally(s, e, posts, id, overlap);
    } else if PostsTo(s, e, id) {
      RoundTally(s, e, posts, id, overlap);
    } else if e.Answered? && Active(s, e.delivery) {
      OtherTally(s, e, posts, id, overlap);
    } else {
      SameDeliveries(s, Step(s, e), posts, id, overlap);
    }
  }

  // ---- runs -----------------------------------------------------------------------

  /** Each query returns a row once, no post to the subscription is accepted, and never more than
      `overlap` deliveries wait for it at once. */
  ghost predicate Overlaps(es: seq<Event>, id: string, overlap: nat) {
    es == [] ||
    (var m := |es| - 1;
     && Overlaps(es[..m], id, overlap)
     && (es[m].Begin? ==> Distinct(es[m].order))
     && (PostsTo(Run(es[..m]), es[m], id) ==> !Accepted(es[m].outcome))
     && |Pending(Run(es), id)| <= overlap)
  }

  lemma RegularStep(s: State, e: Event)
    requires Regular(s) && (e.Begin? ==> Distinct(e.order))
    ensures Regular(Step(s, e))
  {
    if e.Begin? {
      SelectedExact(View(s), e.order, e.event, e.tenant);
    }
    forall d | d in Step(s, e).deliveries
      ensures var v := Step(s, e).deliveries[d];
              Distinct(v.ids) && |v.finished| <= |v.ids| && v.attempts < MAX_ATTEMPTS
    {
      SameDelivery(s, e, d);
    }
  }

  lemma {:induction false} RunRegular(es: seq<Event>, id: string, overlap: nat)
    requires Overlaps(es, id, overlap)
    ensures Regular(Run(es))
  {
    if es != [] {
      var m := |es| - 1;
      RunRegular(es[..m], id, overlap);
      RegularStep(Run(es[..m]), es[m]);
    }
  }

  lemma {:induction false} PostsKnown(es: seq<Event>, id: string)
    ensures forall p <- Posts(es, id) :: p.0 in Run(es).deliveries
  {
    if es != [] {
      var m := |es| - 1;
      PostsKnown(es[..m], id);
      forall d {
        SameDelivery(Run(es[..m]), es[m], d);
      }
    }
  }

  lemma {:induction false} RunTallied(es: seq<Event>, id: string, overlap: nat)
    requires Overlaps(es, id, overlap) && id in Run(es).subs
    ensures Tallied(Run(es), Posts(es, id), id, overlap)
  {
    var m := |es| - 1;
    var s, e, posts := Run(es[..m]), es[m], Posts(es[..m], id);
    assert Run(es) == Step(s, e) && Posts(es, id) == PostsAfter(s, e, id, posts);
    assert Tallied(Run(es), Posts(es, id), id, overlap) by {
      RunRegular(es[..m], id, overlap);
      PostsKnown(es[..m], id);
      if id in s.subs {
        RunTallied(es[..m], id, overlap);
        CounterExact(es[..m], id);
      }
      TallyStep(s, e, posts, id, overlap);
    }
  }

  lemma {:induction false} PostsCounted(es: seq<Event>, id: string, overlap: nat)
    requires Overlaps(es, id, overlap) && id in Run(es).subs
    ensures PostsSince(es, id) == |Posts(es, id)|
  {
    var m := |es| - 1;
    var s, e := Run(es[..m]), es[m];
    if !Restarts(s, e, id) {
      PostsCounted(es[..m], id, overlap);
      RunTallied(es[..m], id, overlap);
      if PostsTo(s, e, id) {
        var v := s.deliveries[e.delivery];
        assert v.ids[|v.finished|..][0] == id;
        assert (e.delivery, v.attempts) !in Posts(es[..m], id);
      }
    }
  }

  lemma {:induction false} PairsBound(posts: set<(nat, nat)>, ds: set<nat>)
    requires forall p <- posts :: p.0 in ds && p.1 < MAX_ATTEMPTS
    ensures |posts| <= MAX_ATTEMPTS * |ds|
    decreases |ds|
  {
    if ds == {} {
      assert posts == {};
    } else {
      var d :| d in ds;
      var own := set p | p in posts && p.0 == d;
      PairsBound(posts - own, ds - {d});
      Subset(own, {(d, 0), (d, 1), (d, 2), (d, 3)});
      assert posts == (posts - own) + own;
    }
  }

  /** When at most `overlap` deliveries wait for a subscription at once, an endpoint that accepts
      nothing receives at most 4 * (9 + overlap) posts after each time the subscription is enabled
      or created; one delivery at a time gives 40. */
  lemma OverlappingPosts(es: seq<Event>, id: string, overlap: nat)
    requires Overlaps(es, id, overlap) && id in Run(es).subs
    ensures PostsSince(es, id) <= 4 * (9 + overlap)
  {
    RunTallied(es, id, overlap);
    PostsCounted(es, id, overlap);
    var s, posts := Run(es), Posts(es, id);
    PostsKnown(es, id);
    PairsBound(posts, Over(s, posts, id) + Pending(s, id));
  }
}
