/** The gateway's per-minute request limiter: fixed buckets counted in Redis,
    with the clock read, the increment and the expiry as separate steps. */
module RateLimiter {
  import opened Options
  import opened Text

  datatype Category = Standard | LlmHeavy

  function CategoryOf(path: string): Category {
    if StartsWith(path, "/copilot/chat") || StartsWith(path, "/outreach/generate") then LlmHeavy else Standard
  }

  function Limit(c: Category): nat { if c.LlmHeavy? then 10 else 100 }

  /** `int(time / 60)`; times are seconds since the epoch, not negative. */
  function Bucket(t: real): int { (t / 60.0).Floor }

  function RetryAfter(t: real): int { 60 - t.Floor % 60 }

  datatype Key = Key(rm: string, category: Category, bucket: int)

  datatype Entry = Entry(count: nat, expireAt: Option<real>)

  function Count(keys: map<Key, Entry>, k: Key, now: real): nat {
    if k in keys && (keys[k].expireAt.None? || now < keys[k].expireAt.value) then keys[k].count else 0
  }

  /** INCR: a key that is gone starts again at 1, without an expiry. */
  function Incr(keys: map<Key, Entry>, k: Key, now: real): map<Key, Entry> {
    if Count(keys, k, now) == 0 then keys[k := Entry(1, None)]
    else keys[k := keys[k].(count := keys[k].count + 1)]
  }

  /** EXPIRE 120. */
  function Expire(keys: map<Key, Entry>, k: Key, now: real): map<Key, Entry> {
    if k in keys then keys[k := keys[k].(expireAt := Some(now + 120.0))] else keys
  }

  // ---------- the middleware ----------

  /** How Redis fares during one request. */
  datatype Redis = Missing | IncrFails | ExpireFails | Up

  datatype Verdict = NotLimited | Admitted(remaining: nat) | Rejected(retryAfter: int)

  const EXCLUDED: set<string> := {"/health", "/docs", "/redoc", "/openapi.json", "/metrics", "/auth/login"}

  class Middleware {
    var keys: map<Key, Entry>

    constructor ()
      ensures keys == map[]
    {
      keys := map[];
    }

    /** One request served without interruption; `later` is the second clock read. */
    method Dispatch(path: string, rm: Option<string>, redis: Redis, now: real, later: real) returns (v: Verdict)
      requires 0.0 <= now <= later
      modifies this
      ensures path in EXCLUDED || rm.None? || redis.Missing? || redis.IncrFails?
          ==> v == NotLimited && keys == old(keys)
      ensures path !in EXCLUDED && rm.Some? && (redis.ExpireFails? || redis.Up?) ==>
                var k := Key(rm.value, CategoryOf(path), Bucket(now));
                var n := Count(old(keys), k, now) + 1;
                && keys == (if n == 1 && redis.Up? then Expire(Incr(old(keys), k, now), k, now)
                    else Incr(old(keys), k, now))
                && v == (if n == 1 && redis.ExpireFails? then NotLimited
                         else if n > Limit(k.category) then Rejected(RetryAfter(later))
                         else Admitted(Limit(k.category) - n))
      ensures path in {"/health", "/docs", "/redoc", "/openapi.json", "/metrics", "/auth/login"} ==> v == NotLimited
      ensures path !in {"/health", "/docs", "/redoc", "/openapi.json", "/metrics", "/auth/login"}
              && rm.Some? && redis.Up? ==>
                var heavy := "/copilot/chat" <= path || "/outreach/generate" <= path;
                var limit := if heavy then 10 else 100;
                var n := Count(keys, Key(rm.value, if heavy then LlmHeavy else Standard, Bucket(now)), now);
                v == if n > limit then Rejected(RetryAfter(later)) else Admitted(limit - n)
    {
      if path in EXCLUDED || rm.None? || redis.Missing? || redis.IncrFails? {
        return NotLimited;
      }
      var category := CategoryOf(path);
      var k := Key(rm.value, category, Bucket(now));
      keys := Incr(keys, k, now);
      var n := keys[k].count;
      if n == 1 {
        if redis.ExpireFails? {
          return NotLimited;
        }
        keys := Expire(keys, k, now);
      }
      if n > Limit(category) {
        return Rejected(RetryAfter(later));
      }
      return Admitted(Limit(category) - n);
    }
  }

  lemma BucketBounds(t: real)
    ensures 60.0 * (Bucket(t) as real) <= t < 60.0 * ((Bucket(t) + 1) as real)
  {
  }

  lemma BucketIs(t: real, b: int)
    requires 60.0 * (b as real) <= t < 60.0 * ((b + 1) as real)
    ensures Bucket(t) == b
  {
  }

  /** Retry-After is the exact wait: that many seconds later the next bucket has
      begun, and after any smaller whole number of seconds it has not. */
  lemma RetryAfterIsExact(t: real, n: int)
    requires 0.0 <= t && 0 <= n < RetryAfter(t)
    ensures 1 <= RetryAfter(t) <= 60
    ensures Bucket(t + RetryAfter(t) as real) == Bucket(t) + 1
    ensures Bucket(t + n as real) == Bucket(t)
  {
    var b, s := t.Floor / 60, t.Floor % 60;
    assert t.Floor == 60 * b + s;
    assert 60.0 * (b as real) == (60 * b) as real;
    assert 60.0 * ((b + 1) as real) == (60 * b + 60) as real;
    assert 60.0 * ((b + 2) as real) == (60 * b + 120) as real;
    BucketIs(t, b);
    BucketIs(t + RetryAfter(t) as real, b + 1);
    BucketIs(t + n as real, b);
  }

  // ---------- requests interleaved ----------

  /** A request between its clock read `at` and the end of its Redis calls. */
  datatype Request = Waiting(key: Key, at: real) | FirstOfKey(key: Key, at: real)

  datatype Admission = Admission(key: Key, at: real)

  datatype State = State(clock: real, keys: map<Key, Entry>, requests: map<nat, Request>, admitted: seq<Admission>)

  datatype Step =
    | Tick(seconds: real)
    | Arrive(r: nat, rm: string, category: Category)
    | Increment(r: nat)
    | SetExpiry(r: nat)
    | Abandon(r: nat)

  const START := State(0.0, map[], map[], [])

  /** `lag` bounds the seconds from a request's clock read to its increment. */
  function Next(s: State, step: Step, lag: real): State {
    match step
    case Tick(d) => if d < 0.0 then s else s.(clock := s.clock + d)
    case Arrive(r, rm, c) =>
      if r in s.requests then s
      else s.(requests := s.requests[r := Waiting(Key(rm, c, Bucket(s.clock)), s.clock)])
    case Increment(r) =>
      if r !in s.requests || !s.requests[r].Waiting? || s.clock > s.requests[r].at + lag then s
      else
        var q := s.requests[r];
        var n := Count(s.keys, q.key, s.clock) + 1;
        State(s.clock, Incr(s.keys, q.key, s.clock),
              if n == 1 then s.requests[r := FirstOfKey(q.key, q.at)] else s.requests - {r},
              if n <= Limit(q.key.category) then s.admitted + [Admission(q.key, q.at)] else s.admitted)
    case SetExpiry(r) =>
      if r !in s.requests || !s.requests[r].FirstOfKey? then s
      else s.(keys := Expire(s.keys, s.requests[r].key, s.clock), requests := s.requests - {r})
    case Abandon(r) => s.(requests := s.requests - {r})
  }

  function Run(s: State, steps: seq<Step>, lag: real): State
    decreases |steps|
  {
    if steps == [] then s else Run(Next(s, steps[0], lag), steps[1..], lag)
  }

  /** Admissions counted under a key. */
  function Tally(admitted: seq<Admission>, k: Key): nat {
    if admitted == [] then 0
    else Tally(admitted[..|admitted| - 1], k) + if admitted[|admitted| - 1].key == k then 1 else 0
  }

  function Min(a: nat, b: nat): nat { if a < b then a else b }

  ghost predicate RequestOk(clock: real, q: Request) {
    q.key.bucket == Bucket(q.at) && q.at <= clock
  }

  ghost predicate EntryOk(clock: real, k: Key, e: Entry) {
    && 1 <= e.count && 60.0 * (k.bucket as real) <= clock
    && (e.expireAt.Some? ==> 60.0 * ((k.bucket + 2) as real) <= e.expireAt.value)
  }

  ghost predicate TallyOk(s: State, k: Key) {
    Tally(s.admitted, k) == if k in s.keys then Min(s.keys[k].count, Limit(k.category)) else 0
  }

  ghost predicate Inv(s: State) {
    && (forall r | r in s.requests :: RequestOk(s.clock, s.requests[r]))
    && (forall k | k in s.keys :: EntryOk(s.clock, k, s.keys[k]))
    && (forall k :: TallyOk(s, k))
    && (forall a | a in s.admitted :: a.key.bucket == Bucket(a.at))
  }

  lemma TallyAppend(admitted: seq<Admission>, a: Admission, k: Key)
    ensures Tally(admitted + [a], k) == Tally(admitted, k) + if a.key == k then 1 else 0
  {
    assert (admitted + [a])[..|admitted + [a]| - 1] == admitted;
  }

  /** While requests of a bucket can still arrive at Redis its key is alive. */
  lemma KeyIsAlive(s: State, q: Request)
    requires Inv(s) && RequestOk(s.clock, q) && s.clock <= q.at + 60.0
    ensures Count(s.keys, q.key, s.clock) == if q.key in s.keys then s.keys[q.key].count else 0
  {
    BucketBounds(q.at);
    assert 60.0 * ((q.key.bucket + 2) as real) == 60.0 * ((q.key.bucket + 1) as real) + 60.0;
    if q.key in s.keys {
      assert EntryOk(s.clock, q.key, s.keys[q.key]);
    }
  }

  /** The request is waiting and its increment still counts. */
  predicate Due(s: State, r: nat, lag: real) {
    r in s.requests && s.requests[r].Waiting? && s.clock <= s.requests[r].at + lag
  }

  lemma IncrementTally(s: State, r: nat, lag: real, k: Key)
    requires Due(s, r, lag) && TallyOk(s, k) && TallyOk(s, s.requests[r].key)
    requires Count(s.keys, s.requests[r].key, s.clock)
          == if s.requests[r].key in s.keys then s.keys[s.requests[r].key].count else 0
    ensures TallyOk(Next(s, Increment(r), lag), k)
  {
    hide Tally, Count, Limit;
    TallyAppend(s.admitted, Admission(s.requests[r].key, s.requests[r].at), k);
  }

  lemma IncrementKeeps(s: State, r: nat, lag: real)
    requires Inv(s) && lag <= 60.0
    ensures Inv(Next(s, Increment(r), lag))
  {
    hide Bucket, TallyOk;
    if Due(s, r, lag) {
      var q, t := s.requests[r], Next(s, Increment(r), lag);
      KeyIsAlive(s, q);
      BucketBounds(q.at);
      forall k ensures TallyOk(t, k) {
        IncrementTally(s, r, lag, k);
      }
    }
  }

  lemma SetExpiryKeeps(s: State, r: nat, lag: real)
    requires Inv(s)
    ensures Inv(Next(s, SetExpiry(r), lag))
  {
    assert forall k :: TallyOk(s, k) ==> TallyOk(Next(s, SetExpiry(r), lag), k);
    if r in s.requests && s.requests[r].FirstOfKey? {
      var q := s.requests[r];
      BucketBounds(q.at);
      assert 60.0 * ((q.key.bucket + 2) as real) == 60.0 * (q.key.bucket as real) + 120.0;
    }
  }

  lemma StepKeeps(s: State, step: Step, lag: real)
    requires Inv(s) && lag <= 60.0
    ensures Inv(Next(s, step, lag))
  {
    assert !step.Increment? && !step.SetExpiry? ==> forall k :: TallyOk(s, k) ==> TallyOk(Next(s, step, lag), k);
    match step
    case Increment(r) => IncrementKeeps(s, r, lag);
    case SetExpiry(r) => SetExpiryKeeps(s, r, lag);
    case Tick(_) =>
    case Arrive(_, _, _) =>
    case Abandon(_) =>
  }

  lemma {:induction false} RunKeeps(s: State, steps: seq<Step>, lag: real)
    requires Inv(s) && lag <= 60.0
    ensures Inv(Run(s, steps, lag))
    decreases |steps|
  {
    if steps != [] {
      StepKeeps(s, steps[0], lag);
      RunKeeps(Next(s, steps[0], lag), steps[1..], lag);
    }
  }

  /** With increments at most a minute behind the clock read, no bucket of a
      manager and category ever admits more than its limit. */
  lemma BucketBound(steps: seq<Step>, lag: real, k: Key)
    requires lag <= 60.0
    ensures Tally(Run(START, steps, lag).admitted, k) <= Limit(k.category)
  {
    RunKeeps(START, steps, lag);
    assert TallyOk(Run(START, steps, lag), k);
  }

  // ---------- any interval ----------

  /** From one time up to another, with or without its end. */
  datatype Window = Window(from: real, to: real, closed: bool) {
    predicate Has(at: real) { from <= at && (at < to || (closed && at == to)) }
  }

  /** 60k seconds including both ends. */
  function Closed(from: real, k: nat): Window { Window(from, from + 60.0 * (k as real), true) }

  /** 60k seconds, the last instant excluded. */
  function HalfOpen(from: real, k: nat): Window { Closed(from, k).(closed := false) }

  predicate InWindow(a: Admission, rm: string, c: Category, w: Window) {
    a.key.rm == rm && a.key.category == c && w.Has(a.at)
  }

  function CountIn(admitted: seq<Admission>, rm: string, c: Category, w: Window): nat {
    if admitted == [] then 0
    else CountIn(admitted[..|admitted| - 1], rm, c, w) + if InWindow(admitted[|admitted| - 1], rm, c, w) then 1 else 0
  }

  function SumTally(admitted: seq<Admission>, rm: string, c: Category, b: int, n: nat): nat {
    if n == 0 then 0 else SumTally(admitted, rm, c, b, n - 1) + Tally(admitted, Key(rm, c, b + n - 1))
  }

  lemma {:induction false} SumTallyAppend(admitted: seq<Admission>, a: Admission, rm: string, c: Category, b: int,
                                          n: nat)
    ensures SumTally(admitted + [a], rm, c, b, n)
         == SumTally(admitted, rm, c, b, n)
            + if a.key.rm == rm && a.key.category == c && b <= a.key.bucket < b + n then 1 else 0
  {
    if n > 0 {
      SumTallyAppend(admitted, a, rm, c, b, n - 1);
      TallyAppend(admitted, a, Key(rm, c, b + n - 1));
    }
  }

  lemma WindowBuckets(from: real, at: real, k: nat)
    requires Closed(from, k).Has(at)
    ensures Bucket(from) <= Bucket(at) <= Bucket(from) + k
    ensures from == 60.0 * (Bucket(from) as real) && HalfOpen(from, k).Has(at) ==> Bucket(at) < Bucket(from) + k
  {
    BucketBounds(from);
    BucketBounds(at);
    var f := Bucket(from);
    assert 60.0 * ((f + k + 1) as real) == 60.0 * ((f + 1) as real) + 60.0 * (k as real);
    assert 60.0 * ((f + k) as real) == 60.0 * (f as real) + 60.0 * (k as real);
  }

  /** The admissions of a window whose times all lie in `n` buckets from `b` on. */
  lemma {:induction false} WindowWithinBuckets(admitted: seq<Admission>, rm: string, c: Category, w: Window, b: int,
                                               n: nat)
    requires forall a | a in admitted :: a.key.bucket == Bucket(a.at)
    requires forall at | w.Has(at) :: b <= Bucket(at) < b + n
    ensures CountIn(admitted, rm, c, w) <= SumTally(admitted, rm, c, b, n)
  {
    hide SumTally, Tally, Bucket;
    if admitted != [] {
      var before, a := admitted[..|admitted| - 1], admitted[|admitted| - 1];
      assert a in admitted && forall x | x in before :: x in admitted;
      WindowWithinBuckets(before, rm, c, w, b, n);
      SumTallyAppend(before, a, rm, c, b, n);
      assert admitted == before + [a];
    }
  }

  lemma {:induction false} SumBound(admitted: seq<Admission>, rm: string, c: Category, b: int, n: nat)
    requires forall k: Key :: Tally(admitted, k) <= Limit(k.category)
    ensures SumTally(admitted, rm, c, b, n) <= n * Limit(c)
  {
    if n > 0 {
      SumBound(admitted, rm, c, b, n - 1);
    }
  }

  lemma BucketsBound(steps: seq<Step>, lag: real, rm: string, c: Category, w: Window, b: int, n: nat)
    requires lag <= 60.0 && forall at | w.Has(at) :: b <= Bucket(at) < b + n
    ensures CountIn(Run(START, steps, lag).admitted, rm, c, w) <= n * Limit(c)
  {
    RunKeeps(START, steps, lag);
    var admitted := Run(START, steps, lag).admitted;
    forall key: Key ensures Tally(admitted, key) <= Limit(key.category) { BucketBound(steps, lag, key); }
    WindowWithinBuckets(admitted, rm, c, w, b, n);
    SumBound(admitted, rm, c, b, n);
  }

  /** Of the requests arriving in any interval of 60k seconds, both ends included,
      at most k + 1 times the limit are admitted. */
  lemma SlidingWindowBound(steps: seq<Step>, lag: real, rm: string, c: Category, from: real, k: nat)
    requires lag <= 60.0
    ensures CountIn(Run(START, steps, lag).admitted, rm, c, Closed(from, k)) <= (k + 1) * Limit(c)
  {
    forall at | Closed(from, k).Has(at) ensures Bucket(from) <= Bucket(at) < Bucket(from) + (k + 1) {
      WindowBuckets(from, at, k);
    }
    BucketsBound(steps, lag, rm, c, Closed(from, k), Bucket(from), k + 1);
  }

  predicate Aligned(from: real) { from == 60.0 * (Bucket(from) as real) }

  lemma AlignedWindowBound(steps: seq<Step>, lag: real, rm: string, c: Category, from: real, k: nat)
    requires lag <= 60.0 && Aligned(from)
    ensures CountIn(Run(START, steps, lag).admitted, rm, c, HalfOpen(from, k)) <= k * Limit(c)
  {
    forall at | HalfOpen(from, k).Has(at) ensures Bucket(from) <= Bucket(at) < Bucket(from) + k {
      WindowBuckets(from, at, k);
    }
    BucketsBound(steps, lag, rm, c, HalfOpen(from, k), Bucket(from), k);
  }

  // ---------- both bounds are the best possible ----------

  /** `n` requests served one after another at one instant; only the first sets
      the expiry. */
  function Burst(rm: string, c: Category, n: nat): seq<Step> {
    if n == 0 then [] else Burst(rm, c, n - 1) + [Arrive(0, rm, c), Increment(0), SetExpiry(0)]
  }

  lemma {:induction false} RunAppend(s: State, a: seq<Step>, b: seq<Step>, lag: real)
    ensures Run(s, a + b, lag) == Run(Run(s, a, lag), b, lag)
    decreases |a|
  {
    if a == [] {
      assert a + b == b;
    } else {
      assert (a + b)[1..] == a[1..] + b;
      RunAppend(Next(s, a[0], lag), a[1..], b, lag);
    }
  }

  lemma RunOne(s: State, step: Step, lag: real)
    ensures Run(s, [step], lag) == Next(s, step, lag)
  {
    assert [step][1..] == [];
  }

  lemma RunThree(s: State, steps: seq<Step>, lag: real)
    requires |steps| == 3
    ensures Run(s, steps, lag) == Next(Next(Next(s, steps[0], lag), steps[1], lag), steps[2], lag)
  {
    assert steps == [steps[0]] + ([steps[1]] + [steps[2]]);
    RunAppend(s, [steps[0]], [steps[1]] + [steps[2]], lag);
    RunOne(s, steps[0], lag);
    RunAppend(Next(s, steps[0], lag), [steps[1]], [steps[2]], lag);
    RunOne(Next(s, steps[0], lag), steps[1], lag);
    RunOne(Next(Next(s, steps[0], lag), steps[1], lag), steps[2], lag);
  }

  /** `n` admissions of the current bucket's key, which expires in two minutes. */
  ghost predicate Filled(s: State, t: State, k: Key, n: nat) {
    && t.clock == s.clock && t.requests == map[]
    && t.keys == (if n == 0 then s.keys else s.keys[k := Entry(n, Some(s.clock + 120.0))])
    && t.admitted == s.admitted + seq(n, _ => Admission(k, s.clock))
  }

  lemma {:induction false} BurstFills(s: State, rm: string, c: Category, n: nat, lag: real)
    requires s.requests == map[] && lag >= 0.0 && n <= Limit(c)
    requires Count(s.keys, Key(rm, c, Bucket(s.clock)), s.clock) == 0
    ensures Filled(s, Run(s, Burst(rm, c, n), lag), Key(rm, c, Bucket(s.clock)), n)
  {
    hide Tally, Next, Incr, Expire, Limit, Bucket;
    var k := Key(rm, c, Bucket(s.clock));
    if n == 0 {
      assert s.admitted + seq(0, _ => Admission(k, s.clock)) == s.admitted;
    } else {
      BurstFills(s, rm, c, n - 1, lag);
      var t := Run(s, Burst(rm, c, n - 1), lag);
      var last := [Arrive(0, rm, c), Increment(0), SetExpiry(0)];
      RunAppend(s, Burst(rm, c, n - 1), last, lag);
      RunThree(t, last, lag);
      OneMore(t, rm, c, n, lag);
      assert seq(n, _ => Admission(k, s.clock)) == seq(n - 1, _ => Admission(k, s.clock)) + [Admission(k, s.clock)];
    }
  }

  lemma OneMore(t: State, rm: string, c: Category, n: nat, lag: real)
    requires t.requests == map[] && lag >= 0.0 && 1 <= n <= Limit(c)
    requires Count(t.keys, Key(rm, c, Bucket(t.clock)), t.clock) == n - 1
    requires n > 1 ==> t.keys[Key(rm, c, Bucket(t.clock))].expireAt == Some(t.clock + 120.0)
    ensures var k := Key(rm, c, Bucket(t.clock));
            Next(Next(Next(t, Arrive(0, rm, c), lag), Increment(0), lag), SetExpiry(0), lag)
            == State(t.clock, t.keys[k := Entry(n, Some(t.clock + 120.0))], map[], t.admitted + [Admission(k, t.clock)])
  {
    var k := Key(rm, c, Bucket(t.clock));
    var t1 := Next(t, Arrive(0, rm, c), lag);
    assert t1.requests == map[0 := Waiting(k, t.clock)];
    var t2 := Next(t1, Increment(0), lag);
    if n == 1 {
      assert t2.requests == map[0 := FirstOfKey(k, t.clock)];
      assert map[0 := FirstOfKey(k, t.clock)] - {0} == map[];
    } else {
      assert map[0 := Waiting(k, t.clock)] - {0} == map[];
    }
  }

  /** A full bucket's worth of requests now and every minute, `k` times more. */
  function Bursts(rm: string, c: Category, k: nat): seq<Step> {
    if k == 0 then Burst(rm, c, Limit(c)) else Bursts(rm, c, k - 1) + Later(60.0, rm, c)
  }

  function Later(seconds: real, rm: string, c: Category): seq<Step> { [Tick(seconds)] + Burst(rm, c, Limit(c)) }

  lemma {:induction false} CountAll(admitted: seq<Admission>, rm: string, c: Category, w: Window)
    requires forall a | a in admitted :: InWindow(a, rm, c, w)
    ensures CountIn(admitted, rm, c, w) == |admitted|
  {
    if admitted != [] {
      CountAll(admitted[..|admitted| - 1], rm, c, w);
    }
  }

  /** `n` full buckets admitted from `from` on, none of a later bucket yet. */
  ghost predicate Burned(s: State, rm: string, c: Category, from: real, n: nat) {
    && s.requests == map[] && from <= s.clock
    && (forall key | key in s.keys :: key.bucket <= Bucket(s.clock))
    && |s.admitted| == n * Limit(c)
    && forall a | a in s.admitted :: InWindow(a, rm, c, Window(from, s.clock, true))
  }

  /** One more full bucket, at a time in a later one. */
  lemma BurnsOn(s: State, rm: string, c: Category, from: real, n: nat, seconds: real, lag: real)
    requires Burned(s, rm, c, from, n) && lag >= 0.0 && seconds >= 0.0 && Bucket(s.clock) < Bucket(s.clock + seconds)
    ensures var t := Run(s, Later(seconds, rm, c), lag);
            Burned(t, rm, c, from, n + 1) && t.clock == s.clock + seconds
  {
    hide Burst, Bucket, Limit, Next;
    RunAppend(s, [Tick(seconds)], Burst(rm, c, Limit(c)), lag);
    RunOne(s, Tick(seconds), lag);
    Waits(s, seconds, lag);
    BurstFills(s.(clock := s.clock + seconds), rm, c, Limit(c), lag);
  }

  lemma Waits(s: State, seconds: real, lag: real)
    requires seconds >= 0.0
    ensures Next(s, Tick(seconds), lag) == s.(clock := s.clock + seconds)
  {
  }

  lemma NextBucket(t: real)
    ensures Bucket(t + 60.0) == Bucket(t) + 1
  {
    BucketBounds(t);
    assert 60.0 * ((Bucket(t) + 2) as real) == 60.0 * ((Bucket(t) + 1) as real) + 60.0;
    assert 60.0 * ((Bucket(t) + 1) as real) == 60.0 * (Bucket(t) as real) + 60.0;
    BucketIs(t + 60.0, Bucket(t) + 1);
  }

  lemma {:induction false} BurstsFill(from: real, rm: string, c: Category, k: nat, lag: real)
    requires lag >= 0.0 && from >= 0.0
    ensures var s := Run(START.(clock := from), Bursts(rm, c, k), lag);
            && Burned(s, rm, c, from, k + 1) && s.clock == from + 60.0 * (k as real)
            && Bucket(s.clock) == Bucket(from) + k
  {
    var s0 := START.(clock := from);
    if k == 0 {
      BurstFills(s0, rm, c, Limit(c), lag);
    } else {
      hide Burned, Bucket;
      BurstsFill(from, rm, c, k - 1, lag);
      var s := Run(s0, Bursts(rm, c, k - 1), lag);
      RunAppend(s0, Bursts(rm, c, k - 1), Later(60.0, rm, c), lag);
      NextBucket(s.clock);
      BurnsOn(s, rm, c, from, k, 60.0, lag);
    }
  }

  lemma StartsAt(from: real, steps: seq<Step>, lag: real)
    requires from >= 0.0
    ensures Run(START, [Tick(from)] + steps, lag) == Run(START.(clock := from), steps, lag)
  {
    RunAppend(START, [Tick(from)], steps, lag);
    RunOne(START, Tick(from), lag);
  }

  /** The interval bound is reached, for every length and start: one manager can
      have (k + 1) * limit requests of 60k seconds admitted. */
  lemma WindowBoundIsReached(rm: string, c: Category, from: real, k: nat, lag: real)
    requires lag >= 0.0 && from >= 0.0
    ensures CountIn(Run(START, [Tick(from)] + Bursts(rm, c, k), lag).admitted, rm, c, Closed(from, k))
        == (k + 1) * Limit(c)
  {
    StartsAt(from, Bursts(rm, c, k), lag);
    BurstsFill(from, rm, c, k, lag);
    CountAll(Run(START.(clock := from), Bursts(rm, c, k), lag).admitted, rm, c, Closed(from, k));
  }

  /** Bursts at `from` and every minute, the last one early: when its bucket begins. */
  function Squeezed(from: real, rm: string, c: Category, k: nat): seq<Step>
    requires k > 0
  {
    [Tick(from)] + (Bursts(rm, c, k - 1) + Later(60.0 * ((Bucket(from) + 1) as real) - from, rm, c))
  }

  lemma UnalignedWindowOverflows(rm: string, c: Category, from: real, k: nat, lag: real)
    requires lag >= 0.0 && from >= 0.0 && k > 0 && !Aligned(from)
    ensures CountIn(Run(START, Squeezed(from, rm, c, k), lag).admitted, rm, c, HalfOpen(from, k)) == (k + 1) * Limit(c)
  {
    var s0, gap := START.(clock := from), 60.0 * ((Bucket(from) + 1) as real) - from;
    StartsAt(from, Bursts(rm, c, k - 1) + Later(gap, rm, c), lag);
    RunAppend(s0, Bursts(rm, c, k - 1), Later(gap, rm, c), lag);
    BurstsFill(from, rm, c, k - 1, lag);
    var s := Run(s0, Bursts(rm, c, k - 1), lag);
    GapEnds(from, k - 1, gap);
    BurnsOn(s, rm, c, from, k, gap, lag);
    var t := Run(s, Later(gap, rm, c), lag);
    CountAll(t.admitted, rm, c, HalfOpen(from, k));
  }

  lemma GapEnds(from: real, k: nat, gap: real)
    requires gap == 60.0 * ((Bucket(from) + 1) as real) - from && !Aligned(from)
    ensures 0.0 <= gap < 60.0
    ensures Bucket(from + 60.0 * (k as real) + gap) == Bucket(from) + k + 1
  {
    BucketBounds(from);
    var b := Bucket(from);
    assert 60.0 * ((b + 1) as real) == 60.0 * (b as real) + 60.0;
    assert 60.0 * ((b + k + 1) as real) == 60.0 * ((b + 1) as real) + 60.0 * (k as real);
    assert 60.0 * ((b + k + 2) as real) == 60.0 * ((b + k + 1) as real) + 60.0;
    BucketIs(from + 60.0 * (k as real) + gap, b + k + 1);
  }

  /** A window of k minutes keeps k times the limit, in every run and for every
      manager and category, exactly when it starts on a minute. */
  lemma WindowLimitIffAligned(from: real, k: nat, lag: real)
    requires 0.0 <= lag <= 60.0 && from >= 0.0 && k > 0
    ensures Aligned(from) <==>
            forall steps, rm, c :: CountIn(Run(START, steps, lag).admitted, rm, c, HalfOpen(from, k)) <= k * Limit(c)
  {
    if Aligned(from) {
      forall steps, rm, c ensures CountIn(Run(START, steps, lag).admitted, rm, c, HalfOpen(from, k)) <= k * Limit(c) {
        AlignedWindowBound(steps, lag, rm, c, from, k);
      }
    } else {
      UnalignedWindowOverflows("", LlmHeavy, from, k, lag);
      var steps := Squeezed(from, "", LlmHeavy, k);
      assert CountIn(Run(START, steps, lag).admitted, "", LlmHeavy, HalfOpen(from, k)) > k * Limit(LlmHeavy);
    }
  }

  /** A full bucket at time 0, and one more request of it that reads the clock
      just before the minute ends and increments when the key has expired. */
  function Straggler(at: real): seq<Step> {
    [Tick(at), Arrive(1, "", LlmHeavy), Tick(120.0 - at)]
  }

  lemma {:induction false} TallyOfSame(k: Key, at: real, n: nat)
    ensures Tally(seq(n, _ => Admission(k, at)), k) == n
  {
    if n > 0 {
      var s := seq(n, _ => Admission(k, at));
      assert s[..n - 1] == seq(n - 1, _ => Admission(k, at));
      TallyOfSame(k, at, n - 1);
    }
  }

  lemma StragglerIsAdmitted(lag: real)
    requires lag > 60.0
    ensures exists steps, k :: Tally(Run(START, steps, lag).admitted, k) > Limit(k.category)
  {
    hide Tally, Burst, RetryAfter;
    var at := if lag >= 61.0 then 59.0 else 120.0 - lag;
    var k, n := Key("", LlmHeavy, 0), Limit(LlmHeavy);
    var burst := Burst("", LlmHeavy, n);
    BucketIs(0.0, 0);
    BurstFills(START, "", LlmHeavy, n, lag);
    var s := Run(START, burst, lag);
    var steps := burst + (Straggler(at) + [Increment(1)]);
    RunAppend(START, burst, Straggler(at) + [Increment(1)], lag);
    RunAppend(s, Straggler(at), [Increment(1)], lag);
    RunThree(s, Straggler(at), lag);
    BucketIs(at, 0);
    var t := Run(s, Straggler(at), lag);
    assert t.clock == 120.0 && t.requests == map[1 := Waiting(k, at)];
    RunOne(t, Increment(1), lag);
    assert Count(t.keys, k, t.clock) == 0;
    TallyOfSame(k, 0.0, n);
    assert s.admitted == seq(n, _ => Admission(k, 0.0));
    TallyAppend(s.admitted, Admission(k, at), k);
    assert Run(START, steps, lag).admitted == s.admitted + [Admission(k, at)];
  }

  /** The two-minute expiry protects the limit exactly when no increment comes
      more than sixty seconds after its clock read. */
  lemma LimitIffPunctual(lag: real)
    ensures lag <= 60.0 <==> forall steps, k :: Tally(Run(START, steps, lag).admitted, k) <= Limit(k.category)
  {
    if lag <= 60.0 {
      forall steps, k ensures Tally(Run(START, steps, lag).admitted, k) <= Limit(k.category) {
        BucketBound(steps, lag, k);
      }
    } else {
      StragglerIsAdmitted(lag);
    }
  }
}
