/** Daily send counters: a check before the send, an increment after it, and a
    24-hour expiry, with several dispatches in flight at once. */
module Compliance {

  datatype Channel = WhatsApp | Sms | Email

  function Limit(ch: Channel): nat {
    match ch case WhatsApp => 1000 case Sms => 500 case Email => 2000
  }

  const DAY: nat := 86400

  /** Whom a message goes to, and by which channel. */
  datatype Slot = Slot(channel: Channel, identifier: string)

  datatype Key = Key(slot: Slot, day: nat)

  datatype Counter = Counter(value: nat, expireAt: nat)

  /** What a read of the key returns at time `now`. */
  function Read(counters: map<Key, Counter>, key: Key, now: nat): nat {
    if key in counters && now < counters[key].expireAt then counters[key].value else 0
  }

  function KeyAt(slot: Slot, now: nat): Key { Key(slot, now / DAY) }

  function Incremented(counters: map<Key, Counter>, slot: Slot, now: nat): map<Key, Counter> {
    var key := KeyAt(slot, now);
    counters[key := Counter(Read(counters, key, now) + 1, now + DAY)]
  }

  class Registry {
    var counters: map<Key, Counter>
    var phones: set<string>
    var emails: set<string>

    constructor ()
      ensures counters == map[] && phones == {} && emails == {}
    {
      counters, phones, emails := map[], {}, {};
    }

    method CheckRateLimit(slot: Slot, now: nat, redisUp: bool) returns (ok: bool)
      ensures ok <==> !redisUp || Read(counters, KeyAt(slot, now), now) < Limit(slot.channel)
      ensures var key := Key(slot, now / 86400);
              var live := key in counters && now < counters[key].expireAt;
              var limit := if slot.channel.Sms? then 500 else if slot.channel.Email? then 2000 else 1000;
              ok <==> !redisUp || !live || counters[key].value < limit
    {
      if !redisUp {
        return true;
      }
      var key := KeyAt(slot, now);
      var count := 0;
      if key in counters && now < counters[key].expireAt {
        count := counters[key].value;
      }
      ok := count < Limit(slot.channel);
    }

    method IncrementRateLimit(slot: Slot, now: nat, redisUp: bool) returns (count: nat)
      modifies this`counters
      ensures counters == if redisUp then Incremented(old(counters), slot, now) else old(counters)
      ensures count == if redisUp then Read(counters, KeyAt(slot, now), now) else 1
      ensures redisUp ==>
                var key := Key(slot, now / 86400);
                var live := key in old(counters) && now < old(counters)[key].expireAt;
                && count == (if live then old(counters)[key].value + 1 else 1)
                && counters == old(counters)[key := Counter(count, now + 86400)]
    {
      if !redisUp {
        return 1;
      }
      var key := KeyAt(slot, now);
      count := (if key in counters && now < counters[key].expireAt then counters[key].value else 0) + 1;
      counters := counters[key := Counter(count, now + DAY)];
    }

    /** Registered under the contact itself; an empty contact never is. */
    method IsOptedOut(slot: Slot) returns (blocked: bool)
      ensures blocked <==> slot.identifier != "" && slot.identifier in (if slot.channel.Email? then emails else phones)
    {
      if slot.identifier == "" {
        return false;
      }
      blocked := slot.identifier in (if slot.channel.Email? then emails else phones);
    }

    method CanSend(slot: Slot, now: nat, redisUp: bool) returns (ok: bool)
      ensures ok <==>
                && (slot.identifier != "" ==> slot.identifier !in (if slot.channel.Email? then emails else phones))
                && (!redisUp || Read(counters, KeyAt(slot, now), now) < Limit(slot.channel))
    {
      var blocked := IsOptedOut(slot);
      if blocked {
        return false;
      }
      ok := CheckRateLimit(slot, now, redisUp);
    }
  }

  // ---------- dispatches interleaved ----------

  /** `inflight`: dispatches past the check and before the increment.
      `counted`: every increment ever made, by key. */
  datatype State = State(clock: nat, counters: map<Key, Counter>, inflight: map<nat, Slot>, counted: multiset<Key>)

  datatype Step =
    | Tick(seconds: nat)
    | Check(w: nat, slot: Slot)
    | Increment(w: nat)
    | Abort(w: nat)
    | Idle

  const START := State(0, map[], map[], multiset{})

  predicate Passes(s: State, slot: Slot) {
    Read(s.counters, KeyAt(slot, s.clock), s.clock) < Limit(slot.channel)
  }

  function Next(s: State, step: Step): State {
    match step
    case Tick(d) => s.(clock := s.clock + d)
    case Check(w, slot) =>
      if w !in s.inflight && Passes(s, slot) then s.(inflight := s.inflight[w := slot]) else s
    case Increment(w) =>
      if w !in s.inflight then s
      else
        var slot := s.inflight[w];
        s.(counters := Incremented(s.counters, slot, s.clock),
           inflight := s.inflight - {w},
           counted := s.counted + multiset{KeyAt(slot, s.clock)})
    case Abort(w) => s.(inflight := s.inflight - {w})
    case Idle => s
  }

  function Run(s: State, steps: seq<Step>): State
    decreases |steps|
  {
    if steps == [] then s else Run(Next(s, steps[0]), steps[1..])
  }

  /** Only `workers` dispatches can be in flight together. */
  predicate Within(step: Step, workers: nat) {
    step.Check? ==> step.w < workers
  }

  function InFlight(s: State, slot: Slot): set<nat> {
    set w | w in s.inflight && s.inflight[w] == slot
  }

  function Today(s: State, slot: Slot): nat { Read(s.counters, KeyAt(slot, s.clock), s.clock) }

  ghost predicate Inv(s: State, workers: nat) {
    && (forall w | w in s.inflight :: w < workers)
    && (forall k | k in s.counters :: k.day <= s.clock / DAY && (k.day + 1) * DAY <= s.counters[k].expireAt)
    && (forall k | k in s.counters :: s.counters[k].value < Limit(k.slot.channel) + workers)
    && (forall k :: s.counted[k] == if k in s.counters then s.counters[k].value else 0)
    && (forall slot :: Today(s, slot) + |InFlight(s, slot)| < Limit(slot.channel) + workers)
  }

  /** No key expires while its own day lasts. */
  lemma LiveToday(s: State, workers: nat, slot: Slot)
    requires Inv(s, workers)
    ensures Today(s, slot) == s.counted[KeyAt(slot, s.clock)]
  {
    var key := KeyAt(slot, s.clock);
    assert s.clock < (key.day + 1) * DAY;
  }

  lemma {:induction false} BelowCount(a: set<nat>, n: nat)
    requires forall x | x in a :: x < n
    ensures |a| <= n
  {
    if n == 0 {
      assert a == {};
    } else {
      BelowCount(a - {n - 1}, n - 1);
    }
  }

  lemma TickKeeps(s: State, d: nat, workers: nat)
    requires Inv(s, workers)
    ensures Inv(Next(s, Tick(d)), workers)
  {
    var t := Next(s, Tick(d));
    assert s.clock / DAY <= t.clock / DAY;
    forall slot ensures Today(t, slot) + |InFlight(t, slot)| < Limit(slot.channel) + workers {
      assert InFlight(t, slot) == InFlight(s, slot);
      if t.clock / DAY == s.clock / DAY {
        assert KeyAt(slot, t.clock) == KeyAt(slot, s.clock);
        LiveToday(s, workers, slot);
      } else {
        assert KeyAt(slot, t.clock) !in s.counters;
        BelowCount(InFlight(s, slot), workers);
      }
    }
  }

  lemma CheckKeeps(s: State, w: nat, slot: Slot, workers: nat)
    requires Inv(s, workers) && w < workers
    ensures Inv(Next(s, Check(w, slot)), workers)
  {
    var t := Next(s, Check(w, slot));
    if w !in s.inflight && Passes(s, slot) {
      forall o ensures Today(t, o) + |InFlight(t, o)| < Limit(o.channel) + workers {
        assert Today(t, o) == Today(s, o);
        if o == slot {
          BelowCount(InFlight(t, o), workers);
        } else {
          assert InFlight(t, o) == InFlight(s, o);
        }
      }
    }
  }

  lemma OneLessInFlight(s: State, w: nat, o: Slot)
    requires w in s.inflight
    ensures |InFlight(s, o)| == |InFlight(Next(s, Increment(w)), o)| + if o == s.inflight[w] then 1 else 0
  {
    hide Incremented, KeyAt;
    var t := Next(s, Increment(w));
    assert t.inflight == s.inflight - {w};
    if o == s.inflight[w] {
      assert w in InFlight(s, o);
      assert InFlight(t, o) == InFlight(s, o) - {w};
      RemoveOne(InFlight(s, o), w);
    } else {
      assert InFlight(t, o) == InFlight(s, o);
    }
  }

  lemma RemoveOne(a: set<nat>, w: nat)
    requires w in a
    ensures |a| == |a - {w}| + 1
  {
  }

  lemma OneMoreToday(s: State, w: nat, o: Slot)
    requires w in s.inflight
    ensures Today(Next(s, Increment(w)), o) == Today(s, o) + if o == s.inflight[w] then 1 else 0
  {
    hide InFlight;
  }

  lemma IncrementKeeps(s: State, w: nat, workers: nat)
    requires Inv(s, workers) && w in s.inflight
    ensures Inv(Next(s, Increment(w)), workers)
  {
    hide InFlight, Today;
    var t, slot := Next(s, Increment(w)), s.inflight[w];
    var key := KeyAt(slot, s.clock);
    ReadsCounted(s, workers, slot);
    OneLessInFlight(s, w, slot);
    assert Today(s, slot) + |InFlight(s, slot)| < Limit(slot.channel) + workers;
    assert (key.day + 1) * DAY <= s.clock + DAY;
    forall o ensures Today(t, o) + |InFlight(t, o)| < Limit(o.channel) + workers {
      OneLessInFlight(s, w, o);
      OneMoreToday(s, w, o);
    }
  }

  lemma ReadsCounted(s: State, workers: nat, slot: Slot)
    requires Inv(s, workers)
    ensures Read(s.counters, KeyAt(slot, s.clock), s.clock) == s.counted[KeyAt(slot, s.clock)] == Today(s, slot)
  {
    hide InFlight;
    LiveToday(s, workers, slot);
  }

  lemma AbortKeeps(s: State, w: nat, workers: nat)
    requires Inv(s, workers)
    ensures Inv(Next(s, Abort(w)), workers)
  {
    var t := Next(s, Abort(w));
    forall o ensures Today(t, o) + |InFlight(t, o)| < Limit(o.channel) + workers {
      assert Today(t, o) == Today(s, o);
      assert InFlight(t, o) == InFlight(s, o) - {w};
    }
  }

  lemma StepKeeps(s: State, step: Step, workers: nat)
    requires Inv(s, workers) && Within(step, workers)
    ensures Inv(Next(s, step), workers)
  {
    match step
    case Tick(d) => TickKeeps(s, d, workers);
    case Check(w, slot) => CheckKeeps(s, w, slot, workers);
    case Increment(w) => if w in s.inflight { IncrementKeeps(s, w, workers); }
    case Abort(w) => AbortKeeps(s, w, workers);
    case Idle =>
  }

  lemma {:induction false} RunKeeps(s: State, steps: seq<Step>, workers: nat)
    requires Inv(s, workers) && forall step | step in steps :: Within(step, workers)
    ensures Inv(Run(s, steps), workers)
    decreases |steps|
  {
    if steps != [] {
      StepKeeps(s, steps[0], workers);
      RunKeeps(Next(s, steps[0]), steps[1..], workers);
    }
  }

  ghost predicate AllWithin(steps: seq<Step>, workers: nat) {
    forall step | step in steps :: Within(step, workers)
  }

  /** Under any interleaving and across midnight, no counter passes the limit by
      more than the other dispatches in flight, and the counter of the current
      day still shows every increment made that day. */
  lemma CounterBound(steps: seq<Step>, workers: nat, key: Key)
    requires AllWithin(steps, workers)
    ensures var s := Run(START, steps);
            && s.counted[key] < Limit(key.slot.channel) + workers
            && (key.day == s.clock / DAY ==> Read(s.counters, key, s.clock) == s.counted[key])
  {
    RunKeeps(START, steps, workers);
    var s := Run(START, steps);
    if key.day == s.clock / DAY {
      LiveToday(s, workers, key.slot);
    }
  }

  // ---------- the bound is reached ----------

  /** `n` dispatches one after another. */
  function Serial(slot: Slot, n: nat): seq<Step> {
    if n == 0 then [] else Serial(slot, n - 1) + [Check(0, slot), Increment(0)]
  }

  function Checks(slot: Slot, n: nat): seq<Step> {
    if n == 0 then [] else Checks(slot, n - 1) + [Check(n - 1, slot)]
  }

  function Increments(n: nat): seq<Step> {
    if n == 0 then [] else Increments(n - 1) + [Increment(n - 1)]
  }

  lemma {:induction false} RunAppend(s: State, a: seq<Step>, b: seq<Step>)
    ensures Run(s, a + b) == Run(Run(s, a), b)
    decreases |a|
  {
    if a == [] {
      assert a + b == b;
    } else {
      assert (a + b)[1..] == a[1..] + b;
      RunAppend(Next(s, a[0]), a[1..], b);
    }
  }

  lemma RunOne(s: State, step: Step)
    ensures Run(s, [step]) == Next(s, step)
  {
    assert [step][1..] == [];
  }

  /** On the first day: `n` counted, and the workers below `k` in flight. */
  ghost predicate Shape(s: State, slot: Slot, n: nat, from: nat, to: nat) {
    && s.clock == 0
    && Today(s, slot) == n
    && s.counted[KeyAt(slot, 0)] == n
    && (forall w | w in s.inflight :: from <= w < to && s.inflight[w] == slot)
    && (forall w: nat | from <= w < to :: w in s.inflight)
  }

  lemma {:induction false} SerialShape(slot: Slot, n: nat)
    requires n <= Limit(slot.channel)
    ensures Shape(Run(START, Serial(slot, n)), slot, n, 0, 0)
  {
    hide Inv;
    if n > 0 {
      SerialShape(slot, n - 1);
      var s := Run(START, Serial(slot, n - 1));
      RunAppend(START, Serial(slot, n - 1), [Check(0, slot), Increment(0)]);
      assert [Check(0, slot), Increment(0)] == [Check(0, slot)] + [Increment(0)];
      RunAppend(s, [Check(0, slot)], [Increment(0)]);
      RunOne(s, Check(0, slot));
      var t := Next(s, Check(0, slot));
      assert Passes(s, slot) && t.inflight == map[0 := slot];
      RunOne(t, Increment(0));
    }
  }

  lemma {:induction false} ChecksShape(s: State, slot: Slot, n: nat, k: nat)
    requires Shape(s, slot, n, 0, 0) && n < Limit(slot.channel)
    ensures Shape(Run(s, Checks(slot, k)), slot, n, 0, k)
  {
    if k > 0 {
      ChecksShape(s, slot, n, k - 1);
      RunAppend(s, Checks(slot, k - 1), [Check(k - 1, slot)]);
      RunOne(Run(s, Checks(slot, k - 1)), Check(k - 1, slot));
    }
  }

  lemma {:induction false} IncrementsShape(s: State, slot: Slot, n: nat, k: nat, j: nat)
    requires Shape(s, slot, n, 0, k) && j <= k
    ensures Shape(Run(s, Increments(j)), slot, n + j, j, k)
  {
    if j > 0 {
      IncrementsShape(s, slot, n, k, j - 1);
      RunAppend(s, Increments(j - 1), [Increment(j - 1)]);
      RunOne(Run(s, Increments(j - 1)), Increment(j - 1));
    }
  }

  function Overshoot(slot: Slot, workers: nat): seq<Step> {
    Serial(slot, Limit(slot.channel) - 1) + (Checks(slot, workers) + Increments(workers))
  }

  lemma {:induction false} OvershootWithin(slot: Slot, n: nat, workers: nat)
    ensures workers > 0 ==> AllWithin(Serial(slot, n), workers)
    ensures n <= workers ==> AllWithin(Checks(slot, n), workers)
    ensures AllWithin(Increments(n), workers)
  {
    if n > 0 {
      OvershootWithin(slot, n - 1, workers);
    }
  }

  lemma BoundIsReached(slot: Slot, workers: nat)
    requires workers > 0
    ensures AllWithin(Overshoot(slot, workers), workers)
    ensures Run(START, Overshoot(slot, workers)).counted[KeyAt(slot, 0)] == Limit(slot.channel) + workers - 1
  {
    var n := Limit(slot.channel) - 1;
    OvershootWithin(slot, n, workers);
    OvershootWithin(slot, workers, workers);
    SerialShape(slot, n);
    var s := Run(START, Serial(slot, n));
    ChecksShape(s, slot, n, workers);
    IncrementsShape(Run(s, Checks(slot, workers)), slot, n, workers, workers);
    RunAppend(START, Serial(slot, n), Checks(slot, workers) + Increments(workers));
    RunAppend(s, Checks(slot, workers), Increments(workers));
  }

  /** The daily limit itself is kept in every run exactly when dispatches never
      overlap between check and increment. */
  lemma DailyLimitIffSerial(workers: nat)
    ensures workers <= 1 <==>
            forall steps, key | AllWithin(steps, workers) ::
              Run(START, steps).counted[key] <= Limit(key.slot.channel)
  {
    if workers <= 1 {
      forall steps, key | AllWithin(steps, workers)
        ensures Run(START, steps).counted[key] <= Limit(key.slot.channel)
      {
        CounterBound(steps, workers, key);
      }
    } else {
      var slot := Slot(Sms, "");
      BoundIsReached(slot, workers);
      var steps := Overshoot(slot, workers);
      assert Run(START, steps).counted[KeyAt(slot, 0)] > Limit(slot.channel);
    }
  }
}
