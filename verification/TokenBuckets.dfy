/** The token buckets of rate_limiter.py, in memory and in a database table, and the middleware
    that derives Retry-After from them. Times and levels are reals; calls are serial. */
module TokenBuckets {
  import opened Common

  /** Python's int() of a float: truncation toward zero. */
  function Trunc(x: real): int {
    if x >= 0.0 then x.Floor else -((-x).Floor)
  }

  function Min(x: real, y: real): real {
    if x <= y then x else y
  }

  /** Tokens that flow in during `elapsed` seconds at `rate` tokens a minute. */
  function Refill(elapsed: real, rate: int): real {
    elapsed * (rate as real / 60.0)
  }

  datatype Bucket = Bucket(level: real, last: real)

  datatype Verdict = Verdict(allowed: bool, remaining: int, resetAt: real)

  datatype Call = Call(key: string, now: real, tokens: int, rate: int, burst: int)

  function ResetAt(now: real, level: real, rate: int, burst: int): real {
    if rate > 0 then now + (burst as real - level) / (rate as real / 60.0) else now + 60.0
  }

  /** The level a call finds: a full bucket for a new key, else the refilled one. */
  function Found(b: Option<Bucket>, c: Call): real {
    match b
    case None => c.burst as real
    case Some(b) => Min(b.level + Refill(c.now - b.last, c.rate), c.burst as real)
  }

  function Left(b: Option<Bucket>, c: Call): real {
    if Found(b, c) >= c.tokens as real then Found(b, c) - c.tokens as real else Found(b, c)
  }

  /** One call against the bucket of its key. */
  function After(b: Option<Bucket>, c: Call): Bucket {
    Bucket(Left(b, c), c.now)
  }

  function Answer(b: Option<Bucket>, c: Call): Verdict {
    Verdict(Found(b, c) >= c.tokens as real, Trunc(Left(b, c)), ResetAt(c.now, Left(b, c), c.rate, c.burst))
  }

  type Buckets = map<string, Bucket>

  function Get(bs: Buckets, key: string): Option<Bucket> {
    if key in bs then Some(bs[key]) else None
  }

  /** The buckets after a series of calls. */
  function Run(calls: seq<Call>): Buckets {
    if calls == [] then map[]
    else
      var bs := Run(calls[..|calls| - 1]);
      var c := calls[|calls| - 1];
      bs[c.key := After(Get(bs, c.key), c)]
  }

  function AllowedAt(calls: seq<Call>, i: nat): bool
    requires i < |calls|
  {
    Answer(Get(Run(calls[..i]), calls[i].key), calls[i]).allowed
  }

  /** Tokens admitted for `key` by the calls from position `i` on. */
  function Admitted(calls: seq<Call>, key: string, i: nat): int {
    if |calls| <= i then 0
    else
      var n := |calls| - 1;
      Admitted(calls[..n], key, i) + if calls[n].key == key && AllowedAt(calls, n) then calls[n].tokens else 0
  }

  /** A clock that does not go back, and non-negative tokens, rates and bursts. */
  ghost predicate Regular(calls: seq<Call>) {
    && (forall i :: 0 <= i < |calls| ==> calls[i].tokens >= 0 && calls[i].rate >= 0 && calls[i].burst >= 0)
    && (forall i, j :: 0 <= i <= j < |calls| ==> calls[i].now <= calls[j].now)
  }

  // ---- levels ---------------------------------------------------------------------

  /** The position of the latest call on a key, or -1. */
  function LastCall(calls: seq<Call>, key: string): (i: int)
    ensures -1 <= i < |calls|
    ensures i >= 0 ==> calls[i].key == key
    ensures forall j :: i < j < |calls| ==> calls[j].key != key
  {
    if calls == [] then -1
    else if calls[|calls| - 1].key == key then |calls| - 1
    else LastCall(calls[..|calls| - 1], key)
  }

  lemma RefillValue(elapsed: real, rate: int)
    ensures Refill(elapsed, rate) == elapsed * rate as real / 60.0
            && Refill(elapsed, rate) == rate as real * elapsed / 60.0
  {
  }

  lemma RefillPositive(elapsed: real, rate: int)
    requires elapsed >= 0.0 && rate >= 0
    ensures Refill(elapsed, rate) >= 0.0
  {
  }

  lemma CallLevel(b: Option<Bucket>, c: Call)
    requires c.tokens >= 0 && c.rate >= 0 && c.burst >= 0
    requires b.Some? ==> b.value.level >= 0.0 && b.value.last <= c.now
    ensures 0.0 <= After(b, c).level <= c.burst as real
  {
    if b.Some? {
      RefillPositive(c.now - b.value.last, c.rate);
    }
  }

  lemma RegularPrefix(calls: seq<Call>, n: nat)
    requires Regular(calls) && n <= |calls|
    ensures Regular(calls[..n])
  {
  }

  /** A key has a bucket exactly when it was called; it was last refilled at the latest call, and
      its level lies between 0 and the burst of that call. */
  lemma {:induction false} LevelInRange(calls: seq<Call>, key: string)
    requires Regular(calls)
    ensures key in Run(calls) <==> LastCall(calls, key) >= 0
    ensures var i := LastCall(calls, key);
            i >= 0 ==> Run(calls)[key].last == calls[i].now && 0.0 <= Run(calls)[key].level <= calls[i].burst as real
  {
    if calls != [] {
      var n := |calls| - 1;
      RegularPrefix(calls, n);
      LevelInRange(calls[..n], key);
      if calls[n].key == key {
        CallLevel(Get(Run(calls[..n]), key), calls[n]);
      }
    }
  }

  // ---- the window bound -----------------------------------------------------------

  lemma RefillMonotone(elapsed: real, rate: int, limit: int)
    requires elapsed >= 0.0 && 0 <= rate <= limit
    ensures Refill(elapsed, rate) <= Refill(elapsed, limit)
  {
    assert (limit as real / 60.0) - (rate as real / 60.0) >= 0.0;
    assert elapsed * ((limit as real / 60.0) - (rate as real / 60.0)) >= 0.0;
  }

  lemma RefillAdds(a: real, b: real, rate: int)
    ensures Refill(a, rate) + Refill(b, rate) == Refill(a + b, rate)
  {
  }

  ghost predicate Within(calls: seq<Call>, key: string, rate: int, burst: int) {
    forall k :: 0 <= k < |calls| && calls[k].key == key ==> calls[k].rate <= rate && calls[k].burst <= burst
  }

  /** What was admitted since the window opened at `s` plus what is left never exceeds a full
      bucket plus the refill at the highest rate; before the first call nothing was admitted. */
  ghost predicate Bounded(b: Option<Bucket>, admitted: int, rate: int, burst: int, s: real) {
    if b.Some? && b.value.last >= s
    then admitted as real + b.value.level <= burst as real + Refill(b.value.last - s, rate)
    else admitted == 0
  }

  lemma WindowCall(b: Option<Bucket>, c: Call, admitted: int, rate: int, burst: int, s: real)
    requires c.tokens >= 0 && 0 <= c.rate <= rate && 0 <= c.burst <= burst && s <= c.now
    requires b.Some? ==> b.value.level >= 0.0 && b.value.last <= c.now
    requires Bounded(b, admitted, rate, burst, s)
    ensures Bounded(Some(After(b, c)), admitted + if Answer(b, c).allowed then c.tokens else 0, rate, burst, s)
  {
    RefillPositive(c.now - s, rate);
    if b.Some? && b.value.last >= s {
      RefillMonotone(c.now - b.value.last, c.rate, rate);
      RefillAdds(b.value.last - s, c.now - b.value.last, rate);
    }
  }

  lemma {:induction false} WindowPotential(calls: seq<Call>, key: string, i: nat, rate: int, burst: int, s: real)
    requires Regular(calls) && rate >= 0 && burst >= 0 && i <= |calls| && Within(calls, key, rate, burst)
    requires i < |calls| ==> s <= calls[i].now
    requires forall k :: 0 <= k < i && calls[k].key == key ==> calls[k].now < s
    ensures Bounded(Get(Run(calls), key), Admitted(calls, key, i), rate, burst, s)
    decreases |calls|
  {
    LevelInRange(calls, key);
    if i < |calls| {
      var n := |calls| - 1;
      RegularPrefix(calls, n);
      WindowPotential(calls[..n], key, i, rate, burst, s);
      if calls[n].key == key {
        var before := Get(Run(calls[..n]), key);
        LevelInRange(calls[..n], key);
        WindowCall(before, calls[n], Admitted(calls[..n], key, i), rate, burst, s);
        assert Get(Run(calls), key) == Some(After(before, calls[n]));
      }
    }
  }

  lemma WindowClose(b: Option<Bucket>, admitted: int, rate: int, burst: int, s: real, t: real)
    requires Bounded(b, admitted, rate, burst, s) && rate >= 0 && burst >= 0 && s <= t
    requires b.Some? ==> b.value.level >= 0.0 && b.value.last <= t
    ensures admitted as real <= burst as real + Refill(t - s, rate)
  {
    RefillPositive(t - s, rate);
    if b.Some? && b.value.last >= s {
      RefillAdds(b.value.last - s, t - b.value.last, rate);
      RefillPositive(t - b.value.last, rate);
    }
  }

  lemma WindowRefill(calls: seq<Call>, key: string, i: nat, rate: int, burst: int, s: real, t: real)
    requires Regular(calls) && rate >= 0 && burst >= 0 && i <= |calls| && Within(calls, key, rate, burst)
    requires s <= t && (forall k :: i <= k < |calls| ==> s <= calls[k].now <= t)
             && (forall k :: 0 <= k < i ==> calls[k].now < s)
    ensures Admitted(calls, key, i) as real <= burst as real + Refill(t - s, rate)
  {
    WindowPotential(calls, key, i, rate, burst, s);
    LevelInRange(calls, key);
    WindowClose(Get(Run(calls), key), Admitted(calls, key, i), rate, burst, s, t);
  }

  /** For any series of calls with rates at most `rate` and bursts at most `burst` on a key, both
      possibly changing from call to call, the tokens admitted for it by the calls made in the
      window [s, t] are at most burst + rate * (t - s) / 60. Calls on other keys do not matter. */
  lemma WindowBound(calls: seq<Call>, key: string, i: nat, rate: int, burst: int, s: real, t: real)
    requires Regular(calls) && rate >= 0 && burst >= 0 && i <= |calls| && Within(calls, key, rate, burst)
    requires s <= t && (forall k :: i <= k < |calls| ==> s <= calls[k].now <= t)
             && (forall k :: 0 <= k < i ==> calls[k].now < s)
    ensures Admitted(calls, key, i) as real <= burst as real + rate as real * (t - s) / 60.0
  {
    WindowRefill(calls, key, i, rate, burst, s, t);
    RefillValue(t - s, rate);
  }

  // ---- what one call answers ------------------------------------------------------

  lemma Reaches(elapsed: real, deficit: real, flow: real)
    requires flow > 0.0
    ensures elapsed * flow >= deficit <==> elapsed >= deficit / flow
  {
    assert deficit / flow * flow == deficit;
    if elapsed >= deficit / flow {
      assert (elapsed - deficit / flow) * flow >= 0.0;
    } else {
      assert (deficit / flow - elapsed) * flow > 0.0;
    }
  }

  /** The reset time is the moment from which on a level of `level` at `now` has reached the burst. */
  lemma ResetExact(now: real, level: real, rate: int, burst: int, t: real)
    ensures rate > 0 ==>
              (level + (t - now) * rate as real / 60.0 >= burst as real <==> t >= ResetAt(now, level, rate, burst))
    ensures rate <= 0 ==> ResetAt(now, level, rate, burst) == now + 60.0
  {
    if rate > 0 {
      Reaches(t - now, burst as real - level, rate as real / 60.0);
      RefillValue(t - now, rate);
    }
  }

  /** The level a call finds: a known key's, refilled at the call's rate up to its burst; a new key
      starts full. */
  lemma FoundExact(b: Option<Bucket>, c: Call)
    ensures b.None? ==> Found(b, c) == c.burst as real
    ensures b.Some? ==>
              var refilled := b.value.level + (c.now - b.value.last) * c.rate as real / 60.0;
              Found(b, c) == if refilled <= c.burst as real then refilled else c.burst as real
  {
    if b.Some? {
      RefillValue(c.now - b.value.last, c.rate);
    }
  }

  /** A call takes its tokens if they are there, and reports whether they were and how many whole
      tokens are left. */
  lemma CallExact(b: Option<Bucket>, c: Call)
    ensures var v, found, left := Answer(b, c), Found(b, c), After(b, c).level;
            && v.allowed == (found >= c.tokens as real) && After(b, c).last == c.now
            && left == (if v.allowed then found - c.tokens as real else found)
            && (if left >= 0.0 then v.remaining as real <= left < v.remaining as real + 1.0
                else v.remaining as real - 1.0 < left <= v.remaining as real)
  {
  }

  /** The reported reset time is the moment from which on an untouched bucket is full again. */
  lemma FullExactly(b: Option<Bucket>, c: Call, t: real)
    ensures c.rate > 0 ==>
              var next := Found(Some(After(b, c)), c.(now := t));
              if t >= Answer(b, c).resetAt then next == c.burst as real else next < c.burst as real
    ensures c.rate <= 0 ==> Answer(b, c).resetAt == c.now + 60.0
  {
    ResetExact(c.now, After(b, c).level, c.rate, c.burst, t);
    FoundExact(Some(After(b, c)), c.(now := t));
  }

  // ---- Retry-After ----------------------------------------------------------------

  function Max(x: int, y: int): int {
    if x >= y then x else y
  }

  /** The header of a rejected request: the middleware reads the clock again after the bucket. */
  function RetryAfter(resetAt: real, clock: real): int {
    Max(1, Trunc(resetAt - clock))
  }

  lemma FullTime(level: real, rate: int)
    requires rate > 0
    ensures Refill((rate as real - level) / (rate as real / 60.0), rate) == rate as real - level
  {
  }

  lemma RefillAtLeast(elapsed: real, enough: real, rate: int)
    requires elapsed >= enough && rate >= 0
    ensures Refill(elapsed, rate) >= Refill(enough, rate)
  {
    assert (elapsed - enough) * (rate as real / 60.0) >= 0.0;
  }

  /** The header is the time until the bucket is full, in whole seconds, and at least 1. */
  lemma RetryAfterExact(resetAt: real, clock: real)
    ensures var wait := RetryAfter(resetAt, clock);
            && wait >= 1 && resetAt - clock < wait as real + 1.0
            && (wait > 1 ==> wait as real <= resetAt - clock)
  {
  }

  /** A rejected request of a bucket with a non-negative level never waits more than a minute, the
      time a whole bucket takes to fill. */
  lemma RetryWithinMinute(b: Option<Bucket>, c: Call, rate: int, clock: real)
    requires rate > 0 && c == Call(c.key, c.now, 1, rate, rate) && clock >= c.now && !Answer(b, c).allowed
    requires b.Some? ==> b.value.level >= 0.0 && b.value.last <= c.now
    ensures 1 <= RetryAfter(Answer(b, c).resetAt, clock) <= 60
  {
    CallLevel(b, c);
    RefillValue(60.0, rate);
    ResetExact(c.now, After(b, c).level, rate, rate, c.now + 60.0);
  }

  /** For a rate of at least 2, a rejected client that retries once its Retry-After has passed is
      admitted if nothing else used its bucket, although the header is truncated to whole seconds. */
  lemma RetryAdmitted(b: Option<Bucket>, first: Call, rate: int, clock: real, later: real)
    requires rate >= 2 && first == Call(first.key, first.now, 1, rate, rate) && clock >= first.now
    requires !Answer(b, first).allowed
    requires later >= clock + RetryAfter(Answer(b, first).resetAt, clock) as real
    ensures Answer(Some(After(b, first)), Call(first.key, later, 1, rate, rate)).allowed
  {
    var level := Found(b, first);
    var reset := ResetAt(first.now, level, rate, rate);
    var full := (rate as real - level) / (rate as real / 60.0);
    FullTime(level, rate);
    assert later - first.now >= full - 1.0;
    RefillAtLeast(later - first.now, full - 1.0, rate);
    RefillAdds(full, -1.0, rate);
    assert Refill(-1.0, rate) == -(rate as real / 60.0);
  }

  /** A client with any history is rejected, waits its Retry-After and retries in vain. */
  ghost predicate RetryFails(calls: seq<Call>, key: string, rate: int, now: real, clock: real, later: real) {
    var b, c := Get(Run(calls), key), Call(key, now, 1, rate, rate);
    && Regular(calls + [c]) && clock >= now
    && !Answer(b, c).allowed
    && later >= clock + RetryAfter(Answer(b, c).resetAt, clock) as real
    && !Answer(Some(After(b, c)), Call(key, later, 1, rate, rate)).allowed
  }

  /** With a rate of 1, after a request at 0, one at 30.6 is told to wait 29 seconds and the
      retry at 59.6 is rejected again. */
  lemma RateOneFails()
    ensures RetryFails([Call("k", 0.0, 1, 1, 1)], "k", 1, 30.6, 30.6, 59.6)
  {
    var calls := [Call("k", 0.0, 1, 1, 1)];
    assert calls[..0] == [];
    var b := Get(Run(calls), "k");
    assert b == Some(Bucket(0.0, 0.0));
    var c := Call("k", 30.6, 1, 1, 1);
    assert Left(b, c) == 0.51;
    assert Answer(b, c).resetAt - 30.6 == 29.4;
    assert Trunc(29.4) == 29;
  }

  lemma RateZeroFails()
    ensures RetryFails([], "k", 0, 0.0, 0.0, 60.0)
  {
    var c := Call("k", 0.0, 1, 0, 0);
    assert Answer(None, c).resetAt == 60.0;
  }

  /** Waiting for Retry-After is enough for every history exactly when the rate is at least 2. */
  lemma RetryWorksExactly(rate: int)
    requires rate >= 0
    ensures (forall calls, key, now, clock, later :: !RetryFails(calls, key, rate, now, clock, later)) <==> rate >= 2
  {
    if rate >= 2 {
      forall calls, key, now, clock, later
        ensures !RetryFails(calls, key, rate, now, clock, later)
      {
        if RetryFails(calls, key, rate, now, clock, later) {
          RetryAdmitted(Get(Run(calls), key), Call(key, now, 1, rate, rate), rate, clock, later);
        }
      }
    } else if rate == 1 {
      RateOneFails();
    } else {
      RateZeroFails();
    }
  }

  // ---- the database-backed bucket -------------------------------------------------

  /** A table row; rate and burst are those of the insert and never updated. */
  datatype Row = Row(level: real, rate: int, burst: int, last: real)

  function RowAfter(r: Option<Row>, c: Call): Row {
    match r
    case None => Row(c.burst as real - c.tokens as real, c.rate, c.burst, c.now)
    case Some(row) =>
      var rate := if c.rate > 0 then c.rate else row.rate;
      var burst := if c.burst > 0 then c.burst else row.burst;
      row.(level := Left(Some(Bucket(row.level, row.last)), c.(rate := rate, burst := burst)), last := c.now)
  }

  function RowAnswer(r: Option<Row>, c: Call): Verdict {
    match r
    case None =>
      var level := c.burst as real - c.tokens as real;
      Verdict(c.tokens <= c.burst, Max(0, Trunc(level)), ResetAt(c.now, level, c.rate, c.burst))
    case Some(row) =>
      var rate := if c.rate > 0 then c.rate else row.rate;
      var burst := if c.burst > 0 then c.burst else row.burst;
      Answer(Some(Bucket(row.level, row.last)), c.(rate := rate, burst := burst))
  }

  type Rows = map<string, Row>

  function GetRow(rs: Rows, key: string): Option<Row> {
    if key in rs then Some(rs[key]) else None
  }

  function RunRows(calls: seq<Call>): Rows {
    if calls == [] then map[]
    else
      var rs := RunRows(calls[..|calls| - 1]);
      var c := calls[|calls| - 1];
      rs[c.key := RowAfter(GetRow(rs, c.key), c)]
  }

  /** The simulation relation: same keys, same levels, same refill times. */
  ghost predicate Matches(bs: Buckets, rs: Rows) {
    && bs.Keys == rs.Keys
    && (forall k :: k in bs ==> rs[k].level == bs[k].level && rs[k].last == bs[k].last)
  }

  ghost predicate Positive(calls: seq<Call>) {
    forall i :: 0 <= i < |calls| ==> calls[i].rate > 0 && calls[i].burst > 0
  }

  /** The first call on each key asks for no more than its burst. */
  ghost predicate FirstsFit(calls: seq<Call>) {
    forall i :: 0 <= i < |calls| && calls[i].key !in Run(calls[..i]) ==> calls[i].tokens <= calls[i].burst
  }

  predicate SameAnswerAt(calls: seq<Call>, i: nat)
    requires i < |calls|
  {
    RowAnswer(GetRow(RunRows(calls[..i]), calls[i].key), calls[i]) ==
        Answer(Get(Run(calls[..i]), calls[i].key), calls[i])
  }

  lemma {:induction false} SameKeys(calls: seq<Call>)
    ensures Run(calls).Keys == RunRows(calls).Keys
  {
    if calls != [] {
      SameKeys(calls[..|calls| - 1]);
    }
  }

  /** On a new key with a positive rate the two agree exactly when the tokens fit the burst: the
      table stores a negative level for an oversized first request. */
  lemma NewKeyAgreement(c: Call)
    requires c.rate > 0 && c.burst >= 0
    ensures RowAnswer(None, c) == Answer(None, c) <==> c.tokens <= c.burst
    ensures RowAfter(None, c).level == After(None, c).level <==> c.tokens <= c.burst
  {
    if c.tokens > c.burst && c.burst == 0 {
      RefillsLater(c.now, c.tokens as real, c.rate);
    }
  }

  /** A deficit takes time to refill. */
  lemma RefillsLater(now: real, deficit: real, rate: int)
    requires deficit > 0.0 && rate > 0
    ensures now + deficit / (rate as real / 60.0) > now
  {
    assert deficit / (rate as real / 60.0) > 0.0;
  }

  /** Two requests at a known key at which the two differ: a rate or a burst of 0 means "as stored"
      to the table and is taken literally by the memory bucket. */
  lemma ZeroDiffers()
    ensures !SameAnswerAt([Call("k", 0.0, 60, 60, 60), Call("k", 60.0, 1, 0, 60)], 1)
    ensures !SameAnswerAt([Call("k", 0.0, 0, 60, 60), Call("k", 0.0, 1, 60, 0)], 1)
  {
    var first, second := Call("k", 0.0, 60, 60, 60), Call("k", 0.0, 0, 60, 60);
    assert [first, Call("k", 60.0, 1, 0, 60)][..1] == [first] && [second, Call("k", 0.0, 1, 60, 0)][..1] == [second];
    assert [first][..0] == [] && [second][..0] == [];
    assert Run([first]) == map["k" := Bucket(0.0, 0.0)] && RunRows([first]) == map["k" := Row(0.0, 60, 60, 0.0)];
    assert Run([second]) == map["k" := Bucket(60.0, 0.0)] && RunRows([second]) == map["k" := Row(60.0, 60, 60, 0.0)];
  }

  /** A call as the table takes it: a rate or burst of 0 stands for the one stored with the key. */
  function AsStored(r: Option<Row>, c: Call): Call {
    match r
    case None => c
    case Some(row) =>
      c.(rate := if c.rate > 0 then c.rate else row.rate, burst := if c.burst > 0 then c.burst else row.burst)
  }

  /** The run as the table takes it. */
  function Effective(calls: seq<Call>): (e: seq<Call>)
    ensures |e| == |calls|
    ensures forall i :: 0 <= i < |calls| ==>
            e[i].key == calls[i].key && e[i].tokens == calls[i].tokens && e[i].now == calls[i].now
  {
    if calls == [] then []
    else
      var n := |calls| - 1;
      Effective(calls[..n]) + [AsStored(GetRow(RunRows(calls[..n]), calls[n].key), calls[n])]
  }

  lemma {:induction false} EffectivePrefix(calls: seq<Call>, n: nat)
    requires n <= |calls|
    ensures Effective(calls[..n]) == Effective(calls)[..n]
    decreases |calls|
  {
    if n < |calls| {
      var m := |calls| - 1;
      EffectivePrefix(calls[..m], n);
      assert calls[..m][..n] == calls[..n];
    } else {
      assert calls[..n] == calls;
    }
  }

  lemma FirstsFitPrefix(calls: seq<Call>, n: nat)
    requires FirstsFit(calls) && n <= |calls|
    ensures FirstsFit(calls[..n])
  {
    forall i | 0 <= i < n && calls[..n][i].key !in Run(calls[..n][..i])
      ensures calls[..n][i].tokens <= calls[..n][i].burst
    {
      assert calls[..n][..i] == calls[..i];
    }
  }

  lemma MatchesStep(bs: Buckets, rs: Rows, c: Call)
    requires Matches(bs, rs) && (c.key !in rs ==> c.tokens <= c.burst)
    ensures var e := AsStored(GetRow(rs, c.key), c);
            && Matches(bs[c.key := After(Get(bs, c.key), e)], rs[c.key := RowAfter(GetRow(rs, c.key), c)])
            && RowAnswer(GetRow(rs, c.key), c) == Answer(Get(bs, c.key), e)
  {
    assert c.key in bs <==> c.key in rs;
  }

  /** Over every serial run in which the first call on each key fits its burst, whatever the rates
      and bursts, the table holds the keys, levels and refill times that the memory bucket has after
      the same run with every rate or burst of 0 replaced by the stored one. */
  lemma {:induction false} Simulation(calls: seq<Call>)
    requires FirstsFit(calls)
    ensures Matches(Run(Effective(calls)), RunRows(calls))
  {
    if calls != [] {
      var n := |calls| - 1;
      FirstsFitPrefix(calls, n);
      Simulation(calls[..n]);
      EffectivePrefix(calls, n);
      SameKeys(calls[..n]);
      MatchesStep(Run(Effective(calls[..n])), RunRows(calls[..n]), calls[n]);
    }
  }

  /** In such a run the table gives at every call the answer that the memory bucket gives in the
      run as the table takes it. */
  lemma TableAnswers(calls: seq<Call>, i: nat)
    requires FirstsFit(calls) && i < |calls|
    ensures RowAnswer(GetRow(RunRows(calls[..i]), calls[i].key), calls[i]) ==
            Answer(Get(Run(Effective(calls)[..i]), calls[i].key), Effective(calls)[i])
  {
    FirstsFitPrefix(calls, i);
    Simulation(calls[..i]);
    EffectivePrefix(calls, i);
    EffectivePrefix(calls, i + 1);
    assert calls[..i + 1][..i] == calls[..i];
    SameKeys(calls[..i]);
    MatchesStep(Run(Effective(calls[..i])), RunRows(calls[..i]), calls[i]);
  }

  lemma {:induction false} EffectivePositive(calls: seq<Call>)
    requires Positive(calls)
    ensures Effective(calls) == calls
  {
    if calls != [] {
      EffectivePositive(calls[..|calls| - 1]);
    }
  }

  /** With positive rates and bursts the table answers every call of a serial run like the memory
      bucket exactly when the first call on each key asks for no more than its burst. */
  lemma SameAnswers(calls: seq<Call>)
    requires Positive(calls)
    ensures (forall i :: 0 <= i < |calls| ==> SameAnswerAt(calls, i)) <==> FirstsFit(calls)
  {
    forall i | 0 <= i < |calls|
      ensures calls[i].key !in Run(calls[..i]) ==> (SameAnswerAt(calls, i) <==> calls[i].tokens <= calls[i].burst)
    {
      SameKeys(calls[..i]);
      NewKeyAgreement(calls[i]);
    }
    if FirstsFit(calls) {
      EffectivePositive(calls);
      forall i | 0 <= i < |calls|
        ensures SameAnswerAt(calls, i)
      {
        TableAnswers(calls, i);
      }
    }
  }

  // ---- the window bound for the table -----------------------------------------------

  /** Tokens that the table admits for `key` by the calls from position `i` on. */
  function TableAdmitted(calls: seq<Call>, key: string, i: nat): int {
    if |calls| <= i then 0
    else
      var n := |calls| - 1;
      TableAdmitted(calls[..n], key, i)
      + if calls[n].key == key && RowAnswer(GetRow(RunRows(calls[..n]), key), calls[n]).allowed then calls[n].tokens
          else 0
  }

  /** The stored rate and burst of a key are those of its first call. */
  lemma {:induction false} StoredWithin(calls: seq<Call>, key: string, rate: int, burst: int)
    requires Regular(calls) && Within(calls, key, rate, burst) && key in RunRows(calls)
    ensures var row := RunRows(calls)[key]; 0 <= row.rate <= rate && 0 <= row.burst <= burst
    ensures exists k :: 0 <= k < |calls| && RunRows(calls)[key].last == calls[k].now
  {
    var n := |calls| - 1;
    RegularPrefix(calls, n);
    if calls[n].key == key {
      assert RunRows(calls)[key].last == calls[n].now;
      if key in RunRows(calls[..n]) {
        StoredWithin(calls[..n], key, rate, burst);
      }
    } else {
      StoredWithin(calls[..n], key, rate, burst);
      var k :| 0 <= k < n && RunRows(calls[..n])[key].last == calls[..n][k].now;
      assert RunRows(calls)[key].last == calls[k].now;
    }
  }

  /** Like Bounded; a level is negative only while nothing has been admitted. */
  ghost predicate TableBounded(r: Option<Row>, admitted: int, rate: int, burst: int, s: real) {
    && (admitted == 0 || (r.Some? && r.value.last >= s && r.value.level >= 0.0))
    && (r.Some? && r.value.last >= s ==>
          admitted as real + r.value.level <= burst as real + Refill(r.value.last - s, rate))
  }

  lemma TableWindowCall(r: Option<Row>, c: Call, admitted: int, rate: int, burst: int, s: real)
    requires c.tokens >= 0 && 0 <= c.rate <= rate && 0 <= c.burst <= burst && s <= c.now
    requires r.Some? ==> r.value.last <= c.now && 0 <= r.value.rate <= rate && 0 <= r.value.burst <= burst
    requires TableBounded(r, admitted, rate, burst, s)
    ensures TableBounded(Some(RowAfter(r, c)), admitted + if RowAnswer(r, c).allowed then c.tokens
                         else 0, rate, burst, s)
  {
    RefillPositive(c.now - s, rate);
    if r.Some? {
      var e := AsStored(r, c);
      RefillPositive(c.now - r.value.last, e.rate);
      if r.value.last >= s {
        RefillMonotone(c.now - r.value.last, e.rate, rate);
        RefillAdds(r.value.last - s, c.now - r.value.last, rate);
      }
    }
  }

  lemma {:induction false} TablePotential(calls: seq<Call>, key: string, i: nat, rate: int, burst: int, s: real)
    requires Regular(calls) && rate >= 0 && burst >= 0 && i <= |calls| && Within(calls, key, rate, burst)
    requires i < |calls| ==> s <= calls[i].now
    requires forall k :: 0 <= k < i ==> calls[k].now < s
    ensures TableBounded(GetRow(RunRows(calls), key), TableAdmitted(calls, key, i), rate, burst, s)
    decreases |calls|
  {
    if key in RunRows(calls) {
      StoredWithin(calls, key, rate, burst);
    }
    if i < |calls| {
      var n := |calls| - 1;
      RegularPrefix(calls, n);
      TablePotential(calls[..n], key, i, rate, burst, s);
      if calls[n].key == key {
        if key in RunRows(calls[..n]) {
          StoredWithin(calls[..n], key, rate, burst);
        }
        TableWindowCall(GetRow(RunRows(calls[..n]), key), calls[n], TableAdmitted(calls[..n], key, i), rate, burst, s);
      }
    }
  }

  lemma TableWindowRefill(calls: seq<Call>, key: string, i: nat, rate: int, burst: int, s: real, t: real)
    requires Regular(calls) && rate >= 0 && burst >= 0 && i <= |calls| && Within(calls, key, rate, burst)
    requires s <= t && (forall k :: i <= k < |calls| ==> s <= calls[k].now <= t)
             && (forall k :: 0 <= k < i ==> calls[k].now < s)
    ensures TableAdmitted(calls, key, i) as real <= burst as real + Refill(t - s, rate)
  {
    TablePotential(calls, key, i, rate, burst, s);
    RefillPositive(t - s, rate);
    if TableAdmitted(calls, key, i) != 0 {
      StoredWithin(calls, key, rate, burst);
      var last := RunRows(calls)[key].last;
      RefillPositive(t - last, rate);
      RefillAdds(last - s, t - last, rate);
    }
  }

  /** What the table answers: a known key like the memory bucket, with the stored rate or burst in
      place of one that is not positive; a new key starts full and gives its tokens away even when
      they are too many. */
  lemma RowExact(r: Option<Row>, c: Call)
    ensures var v, row, e := RowAnswer(r, c), RowAfter(r, c), AsStored(r, c);
            var found := Found(if r.Some? then Some(Bucket(r.value.level, r.value.last)) else None, e);
            && e.rate == (if r.Some? && c.rate <= 0 then r.value.rate else c.rate)
            && e.burst == (if r.Some? && c.burst <= 0 then r.value.burst else c.burst)
            && v.allowed == (found >= c.tokens as real) && row.last == c.now
            && row.level == (if v.allowed || r.None? then found - c.tokens as real else found)
            && row.rate == (if r.Some? then r.value.rate else c.rate)
            && row.burst == (if r.Some? then r.value.burst else c.burst)
            && (row.level >= 0.0 ==> v.remaining as real <= row.level < v.remaining as real + 1.0)
            && (r.None? && row.level < 0.0 ==> v.remaining == 0)
  {
  }

  lemma RowResets(r: Option<Row>, c: Call)
    ensures var e := AsStored(r, c);
            RowAnswer(r, c).resetAt == ResetAt(c.now, RowAfter(r, c).level, e.rate, e.burst)
  {
  }

  lemma RowFullExactly(r: Option<Row>, c: Call, t: real)
    ensures var e, row := AsStored(r, c), RowAfter(r, c);
            if e.rate > 0 then row.level + (t - c.now) * e.rate as real / 60.0 >= e.burst as real <==>
              t >= RowAnswer(r, c).resetAt
            else RowAnswer(r, c).resetAt == c.now + 60.0
  {
    var e := AsStored(r, c);
    RowResets(r, c);
    ResetExact(c.now, RowAfter(r, c).level, e.rate, e.burst, t);
  }

  /** A rejected request never waits more than a minute for the table either, unless an oversized
      first request has left the level negative. */
  lemma TableRetryWithinMinute(r: Option<Row>, c: Call, rate: int, clock: real)
    requires rate > 0 && c == Call(c.key, c.now, 1, rate, rate) && clock >= c.now && !RowAnswer(r, c).allowed
    requires r.Some? ==> r.value.level >= 0.0 && r.value.last <= c.now
    ensures 1 <= RetryAfter(RowAnswer(r, c).resetAt, clock) <= 60
  {
    if r.Some? {
      RetryWithinMinute(Some(Bucket(r.value.level, r.value.last)), c, rate, clock);
    }
  }

  /** The window bound holds for the table bucket, too, oversized first requests and zero rates or
      bursts included. */
  lemma TableWindowBound(calls: seq<Call>, key: string, i: nat, rate: int, burst: int, s: real, t: real)
    requires Regular(calls) && rate >= 0 && burst >= 0 && i <= |calls| && Within(calls, key, rate, burst)
    requires s <= t && (forall k :: i <= k < |calls| ==> s <= calls[k].now <= t)
             && (forall k :: 0 <= k < i ==> calls[k].now < s)
    ensures TableAdmitted(calls, key, i) as real <= burst as real + rate as real * (t - s) / 60.0
  {
    TableWindowRefill(calls, key, i, rate, burst, s, t);
    RefillValue(t - s, rate);
  }

  // ---- Retry-After from the table ---------------------------------------------------

  /** The table's counterpart of RetryFails. */
  ghost predicate TableRetryFails(calls: seq<Call>, key: string, rate: int, now: real, clock: real, later: real) {
    var r, c := GetRow(RunRows(calls), key), Call(key, now, 1, rate, rate);
    && Regular(calls + [c]) && clock >= now
    && !RowAnswer(r, c).allowed
    && later >= clock + RetryAfter(RowAnswer(r, c).resetAt, clock) as real
    && !RowAnswer(Some(RowAfter(r, c)), Call(key, later, 1, rate, rate)).allowed
  }

  lemma TableRateOneFails()
    ensures TableRetryFails([Call("k", 0.0, 1, 1, 1)], "k", 1, 30.6, 30.6, 59.6)
  {
    var calls := [Call("k", 0.0, 1, 1, 1)];
    assert calls[..0] == [];
    var r := GetRow(RunRows(calls), "k");
    assert r == Some(Row(0.0, 1, 1, 0.0));
    var c := Call("k", 30.6, 1, 1, 1);
    assert RowAfter(r, c).level == 0.51;
    assert RowAnswer(r, c).resetAt - 30.6 == 29.4;
    assert Trunc(29.4) == 29;
  }

  lemma TableRateZeroFails()
    ensures TableRetryFails([], "k", 0, 0.0, 0.0, 60.0)
  {
    var c := Call("k", 0.0, 1, 0, 0);
    assert RowAnswer(None, c).resetAt == 60.0 && RowAfter(None, c) == Row(-1.0, 0, 0, 0.0);
  }

  /** The table keeps the promise of Retry-After at exactly the same rates, whatever calls came
      before. */
  lemma TableRetryWorksExactly(rate: int)
    requires rate >= 0
    ensures (forall calls, key, now, clock, later :: !TableRetryFails(calls, key, rate, now, clock, later)) <==>
            rate >= 2
  {
    if rate >= 2 {
      forall calls, key, now, clock, later
        ensures !TableRetryFails(calls, key, rate, now, clock, later)
      {
        if TableRetryFails(calls, key, rate, now, clock, later) {
          var row := GetRow(RunRows(calls), key).value;
          RetryAdmitted(Some(Bucket(row.level, row.last)), Call(key, now, 1, rate, rate), rate, clock, later);
        }
      }
    } else if rate == 1 {
      TableRateOneFails();
    } else {
      TableRateZeroFails();
    }
  }

  // ---- the objects ----------------------------------------------------------------

  class MemoryTokenBucket {
    var buckets: map<string, real>
    var lastRefill: map<string, real>
    var rates: map<string, (int, int)>

    ghost predicate Valid()
      reads this
    {
      buckets.Keys == lastRefill.Keys
    }

    function View(): Buckets
      requires Valid()
      reads this
    {
      map key | key in buckets :: Bucket(buckets[key], lastRefill[key])
    }

    constructor ()
      ensures Valid() && View() == map[]
    {
      buckets, lastRefill, rates := map[], map[], map[];
    }

    method Consume(c: Call) returns (v: Verdict)
      requires Valid()
      modifies this
      ensures Valid() && View() == old(View())[c.key := After(Get(old(View()), c.key), c)]
      ensures rates == old(rates)[c.key := (c.rate, c.burst)]
      ensures v == Answer(Get(old(View()), c.key), c)
    {
      ghost var b := Get(View(), c.key);
      var current := c.burst as real;
      if c.key in buckets {
        current := Min(buckets[c.key] + Refill(c.now - lastRefill[c.key], c.rate), c.burst as real);
      }
      assert current == Found(b, c);
      rates := rates[c.key := (c.rate, c.burst)];
      var allowed := current >= c.tokens as real;
      if allowed {
        current := current - c.tokens as real;
      }
      assert current == Left(b, c);
      buckets := buckets[c.key := current];
      lastRefill := lastRefill[c.key := c.now];
      v := Verdict(allowed, Trunc(current), ResetAt(c.now, current, c.rate, c.burst));
    }
  }

  class MySQLTokenBucket {
    var rows: Rows

    constructor ()
      ensures rows == map[]
    {
      rows := map[];
    }

    method Consume(c: Call) returns (v: Verdict)
      modifies this
      ensures rows == old(rows)[c.key := RowAfter(GetRow(old(rows), c.key), c)]
      ensures v == RowAnswer(GetRow(old(rows), c.key), c)
    {
      if c.key !in rows {
        var level := c.burst as real - c.tokens as real;
        rows := rows[c.key := Row(level, c.rate, c.burst, c.now)];
        v := Verdict(c.tokens <= c.burst, Max(0, Trunc(level)), ResetAt(c.now, level, c.rate, c.burst));
        return;
      }
      var row := rows[c.key];
      var rate := if c.rate > 0 then c.rate else row.rate;
      var burst := if c.burst > 0 then c.burst else row.burst;
      ghost var b, d := Some(Bucket(row.level, row.last)), c.(rate := rate, burst := burst);
      var current := Min(row.level + Refill(c.now - row.last, rate), burst as real);
      assert current == Found(b, d);
      var allowed := current >= c.tokens as real;
      if allowed {
        current := current - c.tokens as real;
      }
      assert current == Left(b, d);
      rows := rows[c.key := row.(level := current, last := c.now)];
      v := Verdict(allowed, Trunc(current), ResetAt(c.now, current, rate, burst));
    }
  }

  datatype Storage = InMemory(bucket: MemoryTokenBucket) | InTable(table: MySQLTokenBucket) {
    function Repr(): set<object> {
      if InMemory? then {bucket} else {table}
    }

    ghost predicate Valid()
      reads Repr()
    {
      InMemory? ==> bucket.Valid()
    }

    /** The bucket's answer to a call. */
    function Reply(c: Call): Verdict
      requires Valid()
      reads Repr()
    {
      if InMemory? then Answer(Get(bucket.View(), c.key), c) else RowAnswer(GetRow(table.rows, c.key), c)
    }
  }

  /** The middleware past its exemptions: the rate follows the caller and the path. */
  class RateLimitMiddleware {
    const unauthenticated: int
    const authenticated: int
    const storage: Storage

    constructor (unauthenticated: int, authenticated: int, storage: Storage)
      ensures this.unauthenticated == unauthenticated && this.authenticated == authenticated && this.storage == storage
    {
      this.unauthenticated, this.authenticated, this.storage := unauthenticated, authenticated, storage;
    }

    /** Admits or rejects one request; `clock` is the second clock reading of the rejection path. */
    method Admit(key: string, isAuthenticated: bool, publicPath: bool, now: real, clock: real)
      returns (retryAfter: Option<int>)
      requires storage.Valid()
      modifies storage.Repr()
      ensures storage.Valid()
      ensures var rate := if isAuthenticated && !publicPath then authenticated else unauthenticated;
              var c := Call(key, now, 1, rate, rate);
              var v := old(storage.Reply(c));
              && retryAfter == (if v.allowed then None else Some(RetryAfter(v.resetAt, clock)))
              && (storage.InMemory? ==>
                    var before := old(storage.bucket.View());
                    storage.bucket.View() == before[key := After(Get(before, key), c)])
              && (storage.InTable? ==>
                    var before := old(storage.table.rows);
                    storage.table.rows == before[key := RowAfter(GetRow(before, key), c)])
    {
      var rate := if isAuthenticated then authenticated else unauthenticated;
      if isAuthenticated && publicPath {
        rate := unauthenticated;
      }
      var v;
      match storage {
        case InMemory(bucket) => v := bucket.Consume(Call(key, now, 1, rate, rate));
        case InTable(table) => v := table.Consume(Call(key, now, 1, rate, rate));
      }
      retryAfter := None;
      if !v.allowed {
        var wait := Trunc(v.resetAt - clock);
        retryAfter := Some(if wait < 1 then 1 else wait);
      }
    }
  }
}
