/** Messages handed to the provider against messages counted: a dispatch that
    fails after its send leaves a message no counter knows of. */
module OutreachMessages {
  import opened OrderedDict
  import opened Options
  import opened Outreach
  import opened OutreachRuns
  import opened OutreachTasks
  import Compliance
  import Tracking

  predicate AtProvider(p: Phase) { p.Accepted? || p.Committed? }

  /** Dispatches to the slot whose message is with the provider, not counted yet. */
  function Delivering(s: State, slot: Slot): set<nat> {
    set w | w in s.workers && s.workers[w].slot == slot && AtProvider(s.workers[w].phase)
  }

  type Kind = (State, Step) -> bool

  /** The step hands a message for the slot to the provider. */
  function Sending(slot: Slot): Kind {
    (s: State, step: Step) =>
      step.Send? && step.w in s.workers && s.workers[step.w].slot == slot && s.workers[step.w].phase.RateClear?
  }

  /** The step counts a message for the slot. */
  function Counting(slot: Slot): Kind {
    (s: State, step: Step) =>
      step.Increment? && step.w in s.workers && s.workers[step.w].slot == slot && s.workers[step.w].phase.Committed?
  }

  /** The step gives up a dispatch whose message is already with the provider. */
  function Losing(slot: Slot): Kind {
    (s: State, step: Step) =>
      step.Fail? && step.w in s.workers && s.workers[step.w].slot == slot && AtProvider(s.workers[step.w].phase)
  }

  function Today(s: State): nat { s.compliance.clock / Compliance.DAY }

  function OnDay(kind: Kind, day: nat): Kind { (s: State, step: Step) => kind(s, step) && Today(s) == day }

  /** How often a run takes a step of the kind. */
  function Times(s: State, steps: seq<Step>, kind: Kind): nat
    decreases |steps|
  {
    if steps == [] then 0 else (if kind(s, steps[0]) then 1 else 0) + Times(Next(s, steps[0]), steps[1..], kind)
  }

  function One(b: bool): nat { if b then 1 else 0 }

  // ---------- conservation ----------

  lemma DeliveringKeeps(s: State, step: Step, slot: Slot)
    ensures |Delivering(s, slot)| + One(Sending(slot)(s, step))
         == |Delivering(Next(s, step), slot)| + One(Counting(slot)(s, step)) + One(Losing(slot)(s, step))
  {
    var before, after := Delivering(s, slot), Delivering(Next(s, step), slot);
    DeliveringAfter(s, step, slot);
    if Counting(slot)(s, step) || Losing(slot)(s, step) {
      Compliance.RemoveOne(before, step.w);
    }
  }

  lemma DeliveringAfter(s: State, step: Step, slot: Slot)
    ensures var before, after := Delivering(s, slot), Delivering(Next(s, step), slot);
            if Sending(slot)(s, step) then step.w !in before && after == before + {step.w}
            else if Counting(slot)(s, step) || Losing(slot)(s, step) then step.w in before && after == before - {step.w}
            else after == before
  {
    hide Next, Compliance.Passes;
    PartsOf(s, step);
  }

  lemma PartsOf(s: State, step: Step)
    ensures Next(s, step).workers == Workers(s, step) && Next(s, step).log == s.log + Logged(s, step)
  {
  }

  /** Every message handed over is counted, lost, or still being delivered. */
  lemma {:induction false} MessagesConserved(s: State, steps: seq<Step>, slot: Slot)
    ensures |Delivering(s, slot)| + Times(s, steps, Sending(slot))
         == |Delivering(Run(s, steps), slot)| + Times(s, steps, Counting(slot)) + Times(s, steps, Losing(slot))
    decreases |steps|
  {
    hide Next, Delivering;
    if steps != [] {
      DeliveringKeeps(s, steps[0], slot);
      MessagesConserved(Next(s, steps[0]), steps[1..], slot);
    }
  }

  function SentTo(log: seq<Event>, slot: Slot): nat {
    if log == [] then 0
    else SentTo(log[..|log| - 1], slot) + One(log[|log| - 1].Sent? && log[|log| - 1].slot == slot)
  }

  lemma SentNext(s: State, step: Step, slot: Slot)
    ensures SentTo(Next(s, step).log, slot) == SentTo(s.log, slot) + One(Sending(slot)(s, step))
  {
    hide Next;
    PartsOf(s, step);
    var more := Logged(s, step);
    if more == [] {
      assert s.log + more == s.log;
    } else {
      assert more == [more[0]] && (s.log + more)[..|s.log|] == s.log;
    }
  }

  lemma {:induction false} SentIsLogged(s: State, steps: seq<Step>, slot: Slot)
    ensures SentTo(Run(s, steps).log, slot) == SentTo(s.log, slot) + Times(s, steps, Sending(slot))
    decreases |steps|
  {
    hide Next;
    if steps != [] {
      SentNext(s, steps[0], slot);
      SentIsLogged(Next(s, steps[0]), steps[1..], slot);
    }
  }

  /** In every run the log's sends to a contact are those counted, those lost
      after the send, and those whose dispatch is between send and count. */
  lemma SendsAccounted(steps: seq<Step>, slot: Slot)
    ensures SentTo(Run(START, steps).log, slot)
         == Times(START, steps, Counting(slot)) + Times(START, steps, Losing(slot))
            + |Delivering(Run(START, steps), slot)|
  {
    SentIsLogged(START, steps, slot);
    MessagesConserved(START, steps, slot);
    assert Delivering(START, slot) == {};
  }

  // ---------- a day's messages ----------

  /** `sent` and `lost` messages of the key's day and slot so far. */
  ghost predicate DayOk(s: State, key: Compliance.Key, sent: nat, lost: nat, workers: nat) {
    && sent < Compliance.Limit(key.slot.channel) + workers + lost
    && (Today(s) < key.day ==> sent == 0)
    && (Today(s) == key.day ==> sent <= s.compliance.counted[key] + |Delivering(s, key.slot)| + lost)
  }

  ghost predicate Sound(s: State, workers: nat) {
    Compliance.Inv(s.compliance, workers) && forall w :: Counted(s, w)
  }

  /** Today's count and the messages on their way stay below limit + W. */
  lemma CountAndDelivering(s: State, key: Compliance.Key, workers: nat)
    requires Sound(s, workers) && Today(s) == key.day
    ensures s.compliance.counted[key] + |Delivering(s, key.slot)| < Compliance.Limit(key.slot.channel) + workers
  {
    var inflight := Compliance.InFlight(s.compliance, key.slot);
    Compliance.ReadsCounted(s.compliance, workers, key.slot);
    assert Compliance.Today(s.compliance, key.slot) + |inflight| < Compliance.Limit(key.slot.channel) + workers;
    forall w | w in Delivering(s, key.slot) ensures w in inflight {
      assert Counted(s, w);
    }
    SubsetCount(Delivering(s, key.slot), inflight);
  }

  lemma SoundKeeps(s: State, step: Step, workers: nat)
    requires Sound(s, workers) && (step.RateCheck? ==> step.w < workers)
    ensures Sound(Next(s, step), workers)
  {
    hide Compliance.Inv, Counted;
    Compliance.StepKeeps(s.compliance, CountStep(s, step), workers);
    forall w ensures Counted(Next(s, step), w) {
      CountedKeeps(s, step, w);
    }
  }

  lemma CountedAfter(s: State, step: Step, key: Compliance.Key)
    requires forall w :: Counted(s, w)
    ensures Next(s, step).compliance.counted[key]
         == s.compliance.counted[key] + One(OnDay(Counting(key.slot), key.day)(s, step))
  {
    hide Approvals, Queue, Workers, Registry, Logged, TrackStep, Compliance.Read, Compliance.Incremented,
        Compliance.Passes;
    if step.Increment? {
      assert Counted(s, step.w);
      if step.w in s.workers && s.workers[step.w].phase.Committed? {
        var counted := Compliance.KeyAt(s.workers[step.w].slot, s.compliance.clock);
        assert Next(s, step).compliance.counted == s.compliance.counted + multiset{counted};
        assert counted.day == Today(s) && key == Compliance.Key(key.slot, key.day);
        assert counted == key <==> OnDay(Counting(key.slot), key.day)(s, step);
      }
    }
  }

  lemma DaysGoOn(s: State, step: Step)
    ensures Today(s) <= Today(Next(s, step)) && (Today(s) < Today(Next(s, step)) ==> step.Tick?)
  {
    hide Approvals, Queue, Workers, Registry, Logged, TrackStep, Compliance.Read, Compliance.Incremented,
        Compliance.Passes;
  }

  lemma DayKeeps(s: State, step: Step, key: Compliance.Key, sent: nat, lost: nat, workers: nat)
    requires Sound(s, workers) && (step.RateCheck? ==> step.w < workers) && DayOk(s, key, sent, lost, workers)
    ensures DayOk(Next(s, step), key, sent + One(OnDay(Sending(key.slot), key.day)(s, step)),
                  lost + One(OnDay(Losing(key.slot), key.day)(s, step)), workers)
  {
    hide Sound, Next, Delivering;
    SoundKeeps(s, step, workers);
    assert forall w :: Counted(s, w) by { SoundCounts(s, workers); }
    CountedAfter(s, step, key);
    DaysGoOn(s, step);
    DeliveringKeeps(s, step, key.slot);
    if Today(Next(s, step)) == key.day {
      CountAndDelivering(Next(s, step), key, workers);
    }
  }

  lemma SoundCounts(s: State, workers: nat)
    requires Sound(s, workers)
    ensures forall w :: Counted(s, w)
  {
  }

  lemma {:induction false} DayThroughout(s: State, steps: seq<Step>, key: Compliance.Key, sent: nat, lost: nat,
                                         workers: nat)
    requires Sound(s, workers) && WorkersBelow(steps, workers) && DayOk(s, key, sent, lost, workers)
    ensures DayOk(Run(s, steps), key, sent + Times(s, steps, OnDay(Sending(key.slot), key.day)),
                  lost + Times(s, steps, OnDay(Losing(key.slot), key.day)), workers)
    decreases |steps|
  {
    hide Sound, Next, DayOk;
    if steps != [] {
      var step := steps[0];
      assert step in steps;
      var sends, losses := One(OnDay(Sending(key.slot), key.day)(s, step)),
          One(OnDay(Losing(key.slot), key.day)(s, step));
      DayKeeps(s, step, key, sent, lost, workers);
      SoundKeeps(s, step, workers);
      DayThroughout(Next(s, step), steps[1..], key, sent + sends, lost + losses, workers);
    }
  }

  /** Messages to one contact by one channel on one day, over every run of the
      protocol: limit + W - 1, plus those lost after their send that day. */
  lemma MessagesBound(steps: seq<Step>, workers: nat, key: Compliance.Key)
    requires WorkersBelow(steps, workers)
    ensures Times(START, steps, OnDay(Sending(key.slot), key.day))
          < Compliance.Limit(key.slot.channel) + workers + Times(START, steps, OnDay(Losing(key.slot), key.day))
  {
    hide Times, Run, Sound, WorkersBelow;
    StartIsSound(key, workers);
    DayThroughout(START, steps, key, 0, 0, workers);
  }

  lemma StartIsSound(key: Compliance.Key, workers: nat)
    ensures Sound(START, workers) && DayOk(START, key, 0, 0, workers)
  {
  }

  // ---------- the bound is reached, whatever the number of losses ----------

  /** One campaign for the contact, `n` tasks of it queued, `c` messages counted
      today, and the first `k` workers waiting after their send. */
  ghost predicate Ready(s: State, slot: Slot, clock: nat, n: nat, c: nat, k: nat) {
    && 0 in s.tracking.rows && s.tracking.rows[0].slot == slot
    && s.dnd == {} && s.compliance.clock == clock
    && Compliance.Today(s.compliance, slot) == c && s.compliance.counted[Compliance.KeyAt(slot, clock)] == c
    && (forall t | t in s.queue :: t.c == 0) && |s.queue| == n
    && (forall w: nat :: w in s.workers <==> w < k)
    && (forall w | w in s.workers :: s.workers[w].slot == slot && s.workers[w].phase.Accepted?)
    && (forall w | w in s.compliance.inflight :: w < k)
  }

  /** The steps check only with workers below `n` and let no time pass. */
  ghost predicate Quick(steps: seq<Step>, n: nat) {
    forall step | step in steps :: (step.RateCheck? ==> step.w < n) && !step.Tick?
  }

  lemma SentToOne(log: seq<Event>, e: Event, slot: Slot)
    ensures SentTo(log + [e], slot) == SentTo(log, slot) + One(e.Sent? && e.slot == slot)
  {
    assert (log + [e])[..|log|] == log;
  }

  // ---------- single dispatches up to their send, and from there on ----------

  function LaunchSteps(w: nat, task: Task): seq<Step> {
    [Load(w, task), DndCheck(w), RateCheck(w)] + [Send(w, "id")]
  }

  function Loading(s: State, w: nat, task: Task): Worker
    requires task.c in s.tracking.rows
  {
    var row := s.tracking.rows[task.c];
    Worker(task, row.content, row.slot, |s.log|, RateClear(|s.log| + 1))
  }

  /** Everything but the worker itself once its message is sent. */
  function Launched(s: State, w: nat, task: Task): State
    requires task.c in s.tracking.rows
  {
    var k := Loading(s, w, task);
    s.(queue := s.queue - multiset{task},
       log := s.log + [Loaded(w, task.c, k.content, task.approval)] + [DndPassed(w, k.slot)]
              + [Sent(w, task.c, k.slot, k.content, k.loaded, k.phase.dnd)],
       compliance := s.compliance.(inflight := s.compliance.inflight[w := k.slot]))
  }

  function Waiting(s: State, w: nat, k: Worker): State { s.(workers := s.workers[w := k.(phase := Accepted("id"))]) }

  lemma LaunchRuns(s: State, w: nat, task: Task)
    requires w !in s.workers && w !in s.compliance.inflight && CanLoad(s, w, task) && s.dnd == {}
    requires s.tracking.rows[task.c].slot.identifier != ""
    requires Compliance.Passes(s.compliance, s.tracking.rows[task.c].slot)
    ensures Run(s, LaunchSteps(w, task)) == Waiting(Launched(s, w, task), w, Loading(s, w, task))
  {
    hide Next, Run, Compliance.Passes;
    var front, k := [Load(w, task), DndCheck(w), RateCheck(w)], Loading(s, w, task);
    RunAppend(s, front, [Send(w, "id")]);
    RunThree(s, front);
    FirstThree(s, w, task);
    var checked := s.(
      queue := s.queue - multiset{task},
      log := s.log + [Loaded(w, task.c, k.content, task.approval)] + [DndPassed(w, k.slot)],
      compliance := s.compliance.(inflight := s.compliance.inflight[w := k.slot]));
    RunOne(checked.(workers := s.workers[w := k]), Send(w, "id"));
    SendStep(checked, w, k, "id");
  }

  lemma Launch(s: State, slot: Slot, clock: nat, n: nat, c: nat, k: nat) returns (steps: seq<Step>, task: Task)
    requires Ready(s, slot, clock, n + 1, c, k) && slot.identifier != "" && c < Compliance.Limit(slot.channel)
    ensures task in s.queue && task.c == 0 && Quick(steps, k + 1)
    ensures Run(s, steps) == Waiting(Launched(s, k, task), k, Loading(s, k, task))
    ensures Ready(Run(s, steps), slot, clock, n, c, k + 1)
    ensures SentTo(Run(s, steps).log, slot) == SentTo(s.log, slot) + 1
  {
    hide Run, SentTo, Launched, Loading;
    task :| task in s.queue;
    steps := LaunchSteps(k, task);
    LaunchRuns(s, k, task);
    LaunchSends(s, k, task);
    LaunchIsReady(s, slot, clock, n, c, k, task);
  }

  lemma LaunchSends(s: State, w: nat, task: Task)
    requires task.c in s.tracking.rows
    ensures var slot := s.tracking.rows[task.c].slot; SentTo(Launched(s, w, task).log, slot) == SentTo(s.log, slot) + 1
  {
    hide SentTo;
    var k := Loading(s, w, task);
    var loaded := s.log + [Loaded(w, task.c, k.content, task.approval)];
    SentToOne(s.log, Loaded(w, task.c, k.content, task.approval), k.slot);
    SentToOne(loaded, DndPassed(w, k.slot), k.slot);
    SentToOne(loaded + [DndPassed(w, k.slot)], Sent(w, task.c, k.slot, k.content, k.loaded, k.phase.dnd), k.slot);
  }

  lemma LaunchIsReady(s: State, slot: Slot, clock: nat, n: nat, c: nat, k: nat, task: Task)
    requires Ready(s, slot, clock, n + 1, c, k) && task in s.queue
    ensures Ready(Waiting(Launched(s, k, task), k, Loading(s, k, task)), slot, clock, n, c, k + 1)
  {
    var t := Waiting(Launched(s, k, task), k, Loading(s, k, task));
    assert |s.queue - multiset{task}| == n;
    assert forall w: nat :: w in t.workers <==> w in s.workers || w == k;
  }

  /** A dispatch that fails after its send and is queued again. */
  lemma Lose(s: State, slot: Slot, clock: nat, n: nat, c: nat) returns (steps: seq<Step>)
    requires Ready(s, slot, clock, n + 1, c, 0) && slot.identifier != "" && c < Compliance.Limit(slot.channel)
    ensures Quick(steps, 1) && Ready(Run(s, steps), slot, clock, n + 1, c, 0)
    ensures SentTo(Run(s, steps).log, slot) == SentTo(s.log, slot) + 1
  {
    hide Run, SentTo;
    var launch, task := Launch(s, slot, clock, n, c, 0);
    steps := launch + [Fail(0, true)];
    RunAppend(s, launch, [Fail(0, true)]);
    RunOne(Run(s, launch), Fail(0, true));
    var k := Loading(s, 0, task).(phase := Accepted("id"));
    assert s.workers == map[] && s.compliance.inflight == map[];
    FailStep(Launched(s, 0, task), 0, k, s.compliance, true);
    assert s.queue - multiset{task} + multiset{task} == s.queue;
  }

  /** A dispatch that goes through. */
  lemma Deliver(s: State, slot: Slot, clock: nat, n: nat, c: nat) returns (steps: seq<Step>)
    requires Ready(s, slot, clock, n + 1, c, 0) && slot.identifier != "" && c < Compliance.Limit(slot.channel)
    ensures Quick(steps, 1) && Ready(Run(s, steps), slot, clock, n, c + 1, 0)
    ensures SentTo(Run(s, steps).log, slot) == SentTo(s.log, slot) + 1
  {
    hide Run, SentTo, Next, Tracking.Next, Compliance.Today, Compliance.Incremented, Compliance.Read;
    var launch, task := Launch(s, slot, clock, n, c, 0);
    var last := [MarkSent(0)] + [Increment(0)];
    steps := launch + last;
    RunAppend(s, launch, last);
    var t := Run(s, launch);
    RunAppend(t, [MarkSent(0)], [Increment(0)]);
    RunOne(t, MarkSent(0));
    RunOne(Next(t, MarkSent(0)), Increment(0));
    assert s.workers == map[] && s.compliance.inflight == map[];
    var k := Loading(s, 0, task).(phase := Accepted("id"));
    var x := Launched(s, 0, task);
    MarkStep(x, 0, k);
    SentToOne(x.log, Marked(0), slot);
    var y := x.(tracking := Tracking.Next(x.tracking, Tracking.Mark(0, "id", clock)), log := x.log + [Marked(0)]);
    IncrementStep(y, 0, k.(phase := Committed), s.compliance);
    MarkKeepsRow(x.tracking, "id", clock);
    CountsOneMore(s.compliance, slot, clock, c);
    DeliveredIsReady(s, Run(s, steps), slot, clock, n, c, task);
  }

  lemma DeliveredIsReady(s: State, t: State, slot: Slot, clock: nat, n: nat, c: nat, task: Task)
    requires Ready(s, slot, clock, n + 1, c, 0) && task in s.queue
    requires t.queue == s.queue - multiset{task} && t.workers == s.workers && t.dnd == s.dnd
    requires 0 in t.tracking.rows && t.tracking.rows[0].slot == slot
    requires t.compliance.clock == clock && t.compliance.inflight == s.compliance.inflight
    requires Compliance.Today(t.compliance, slot) == c + 1
    requires t.compliance.counted[Compliance.KeyAt(slot, clock)] == c + 1
    ensures Ready(t, slot, clock, n, c + 1, 0)
  {
    assert |s.queue - multiset{task}| == n;
  }

  lemma MarkKeepsRow(t: Tracking.State, pid: string, now: nat)
    requires 0 in t.rows
    ensures var u := Tracking.Next(t, Tracking.Mark(0, pid, now)); 0 in u.rows && u.rows[0].slot == t.rows[0].slot
  {
  }

  lemma CountsOneMore(s: Compliance.State, slot: Slot, clock: nat, c: nat)
    requires s.clock == clock && Compliance.Today(s, slot) == c && s.counted[Compliance.KeyAt(slot, clock)] == c
    ensures var t := s.(counters := Compliance.Incremented(s.counters, slot, clock),
                        counted := s.counted + multiset{Compliance.KeyAt(slot, clock)});
            Compliance.Today(t, slot) == c + 1 && t.counted[Compliance.KeyAt(slot, clock)] == c + 1
  {
  }

  // ---------- many of them ----------

  lemma QuickAppend(a: seq<Step>, b: seq<Step>, m: nat, n: nat)
    requires Quick(a, m) && Quick(b, n)
    ensures Quick(a + b, if m < n then n else m)
  {
  }

  const NO_CHANGE: Change := Tracking.Change("", None)

  /** A campaign that is approved `n` times before it is sent. */
  lemma {:induction false} ApproveMany(s: State, slot: Slot, clock: nat, n: nat) returns (steps: seq<Step>)
    requires Ready(s, slot, clock, 0, 0, 0) && s.approvals == map[]
    requires s.tracking.rows[0].rm == 0 && s.tracking.rows[0].sentAt.None?
    ensures var t := Run(s, steps);
            && Quick(steps, 0) && Ready(t, slot, clock, n, 0, 0) && t.approvals == map[]
            && t.tracking.rows[0].rm == 0 && t.tracking.rows[0].sentAt.None?
            && SentTo(t.log, slot) == SentTo(s.log, slot)
    decreases n
  {
    hide Run, SentTo, Next;
    if n == 0 {
      steps := [];
      RunNone(s);
    } else {
      var before := ApproveMany(s, slot, clock, n - 1);
      var t, once := Run(s, before), ApproveSteps(1, 0, 0, NO_CHANGE);
      steps := before + once;
      RunAppend(s, before, once);
      ApproveRuns(t, 1, 0, 0, NO_CHANGE);
      assert t.log + [Checked(0, 0), Approved(0, 0, NO_CHANGE, |t.log|)]
          == t.log + [Checked(0, 0)] + [Approved(0, 0, NO_CHANGE, |t.log|)];
      SentToOne(t.log, Checked(0, 0), slot);
      SentToOne(t.log + [Checked(0, 0)], Approved(0, 0, NO_CHANGE, |t.log|), slot);
    }
  }

  lemma RunNone(s: State)
    ensures Run(s, []) == s
  {
  }

  lemma {:induction false} LoseMany(s: State, slot: Slot, clock: nat, n: nat, k: nat) returns (steps: seq<Step>)
    requires Ready(s, slot, clock, n + 1, 0, 0) && slot.identifier != ""
    ensures Quick(steps, 1) && Ready(Run(s, steps), slot, clock, n + 1, 0, 0)
    ensures SentTo(Run(s, steps).log, slot) == SentTo(s.log, slot) + k
    decreases k
  {
    hide Run, SentTo, Next, Ready, Quick;
    if k == 0 {
      steps := [];
      RunNone(s);
      QuickNone();
    } else {
      var before := LoseMany(s, slot, clock, n, k - 1);
      var once := Lose(Run(s, before), slot, clock, n, 0);
      steps := before + once;
      RunAppend(s, before, once);
      QuickAppend(before, once, 1, 1);
    }
  }

  lemma QuickNone()
    ensures Quick([], 1)
  {
  }

  lemma {:induction false} DeliverMany(s: State, slot: Slot, clock: nat, n: nat, k: nat) returns (steps: seq<Step>)
    requires Ready(s, slot, clock, n + k, 0, 0) && slot.identifier != "" && k <= Compliance.Limit(slot.channel)
    ensures Quick(steps, 1) && Ready(Run(s, steps), slot, clock, n, k, 0)
    ensures SentTo(Run(s, steps).log, slot) == SentTo(s.log, slot) + k
    decreases k
  {
    hide Run, SentTo, Next, Ready, Quick;
    if k == 0 {
      steps := [];
      RunNone(s);
      QuickNone();
    } else {
      var before := DeliverMany(s, slot, clock, n + 1, k - 1);
      var once := Deliver(Run(s, before), slot, clock, n, k - 1);
      steps := before + once;
      RunAppend(s, before, once);
      QuickAppend(before, once, 1, 1);
    }
  }

  /** `k` workers up to their send at once. */
  lemma {:induction false} LaunchMany(s: State, slot: Slot, clock: nat, n: nat, c: nat, k: nat)
    returns (steps: seq<Step>)
    requires Ready(s, slot, clock, n + k, c, 0) && slot.identifier != "" && c < Compliance.Limit(slot.channel)
    ensures Quick(steps, if k == 0 then 1 else k) && Ready(Run(s, steps), slot, clock, n, c, k)
    ensures SentTo(Run(s, steps).log, slot) == SentTo(s.log, slot) + k
    decreases k
  {
    hide Run, SentTo, Next, Ready, Quick;
    if k == 0 {
      steps := [];
      RunNone(s);
      QuickNone();
    } else {
      var before := LaunchMany(s, slot, clock, n + 1, c, k - 1);
      var once, _ := Launch(Run(s, before), slot, clock, n, c, k - 1);
      steps := before + once;
      RunAppend(s, before, once);
      QuickAppend(before, once, if k == 1 then 1 else k - 1, k);
    }
  }

  /** One campaign, at a time of day. */
  function Morning(slot: Slot, clock: nat): State {
    START.(compliance := Compliance.START.(clock := clock),
           tracking := Tracking.State(map[0 := Tracking.Draft(0, slot, GREETING)], map[]),
           log := [Created(0, Origin(0, slot), GREETING)])
  }

  const GREETING := Tracking.Content("hello", None)

  lemma MorningIsReady(slot: Slot, clock: nat)
    ensures Ready(Morning(slot, clock), slot, clock, 0, 0, 0) && SentTo(Morning(slot, clock).log, slot) == 0
  {
    SentToOne([], Created(0, Origin(0, slot), GREETING), slot);
  }

  lemma FirstCampaign(slot: Slot, clock: nat)
    ensures Next(Next(START, Tick(clock)), Create(0, 0, slot, GREETING)) == Morning(slot, clock)
  {
    assert Next(START, Tick(clock)) == START.(compliance := Compliance.START.(clock := clock));
  }

  /** All approvals first, then `losses` dispatches that fail, then the limit but
      one delivered, then all workers at once. */
  lemma FullDay(slot: Slot, clock: nat, workers: nat, losses: nat) returns (steps: seq<Step>)
    requires workers > 0 && slot.identifier != ""
    ensures var s := Next(START, Tick(clock));
            && Quick(steps, workers)
            && Ready(Run(s, steps), slot, clock, 0, Compliance.Limit(slot.channel) - 1, workers)
            && SentTo(Run(s, steps).log, slot) == Compliance.Limit(slot.channel) - 1 + workers + losses
  {
    hide Run, SentTo, Next, Ready;
    var limit, s := Compliance.Limit(slot.channel), Next(START, Tick(clock));
    var create := Create(0, 0, slot, GREETING);
    FirstCampaign(slot, clock);
    MorningIsReady(slot, clock);
    RunOne(s, create);
    var a := ApproveMany(Next(s, create), slot, clock, workers + (limit - 1));
    var s1 := Run(Next(s, create), a);
    var b := LoseMany(s1, slot, clock, workers + (limit - 1) - 1, losses);
    var s2 := Run(s1, b);
    var c := DeliverMany(s2, slot, clock, workers, limit - 1);
    var s3 := Run(s2, c);
    var d := LaunchMany(s3, slot, clock, 0, limit - 1, workers);
    steps := [create] + (a + (b + (c + d)));
    RunAppend(s, [create], a + (b + (c + d)));
    RunAppend(Next(s, create), a, b + (c + d));
    RunAppend(s1, b, c + d);
    RunAppend(s2, c, d);
  }

  // ---------- counting the run's messages and losses ----------

  /** A run that stays in one moment. */
  lemma {:induction false} SameDay(s: State, steps: seq<Step>, kind: Kind)
    requires forall step | step in steps :: !step.Tick?
    ensures Times(s, steps, OnDay(kind, Today(s))) == Times(s, steps, kind)
    decreases |steps|
  {
    hide Next;
    if steps != [] {
      assert steps[0] in steps;
      DaysStay(s, steps[0]);
      SameDay(Next(s, steps[0]), steps[1..], kind);
    }
  }

  lemma DaysStay(s: State, step: Step)
    requires !step.Tick?
    ensures Today(Next(s, step)) == Today(s)
  {
    hide Approvals, Queue, Workers, Registry, Logged, TrackStep, Compliance.Read, Compliance.Incremented,
        Compliance.Passes;
  }

  /** The counter's key grows by the counting steps of its day. */
  lemma {:induction false} CountedIsTimes(s: State, steps: seq<Step>, key: Compliance.Key)
    requires forall w :: Counted(s, w)
    ensures Run(s, steps).compliance.counted[key]
         == s.compliance.counted[key] + Times(s, steps, OnDay(Counting(key.slot), key.day))
    decreases |steps|
  {
    hide Next, Counted;
    if steps != [] {
      CountedAfter(s, steps[0], key);
      forall w ensures Counted(Next(s, steps[0]), w) { CountedKeeps(s, steps[0], w); }
      CountedIsTimes(Next(s, steps[0]), steps[1..], key);
    }
  }

  lemma {:induction false} AllBelow(a: set<nat>, k: nat)
    requires forall w: nat :: w in a <==> w < k
    ensures |a| == k
  {
    if k == 0 {
      assert a == {};
    } else {
      assert k - 1 in a;
      AllBelow(a - {k - 1}, k - 1);
    }
  }

  /** For every number of workers, losses and every contact and day: a run that
      sends limit + W - 1 messages and those lost. */
  lemma MessagesBoundIsReached(key: Compliance.Key, workers: nat, losses: nat) returns (steps: seq<Step>)
    requires workers > 0 && key.slot.identifier != ""
    ensures WorkersBelow(steps, workers)
    ensures Times(START, steps, OnDay(Losing(key.slot), key.day)) == losses
    ensures Times(START, steps, OnDay(Sending(key.slot), key.day))
        == Compliance.Limit(key.slot.channel) + workers - 1 + losses
  {
    hide Next, Run, SentTo, Ready, Times, Quick;
    var slot, clock := key.slot, key.day * Compliance.DAY;
    var rest := FullDay(slot, clock, workers, losses);
    var s := Next(START, Tick(clock));
    steps := [Tick(clock)] + rest;
    QuickIs(rest, workers);
    MorningState(slot, clock, key.day);
    TimesAfterTick(clock, rest, OnDay(Losing(slot), key.day));
    TimesAfterTick(clock, rest, OnDay(Sending(slot), key.day));
    SameDay(s, rest, Losing(slot));
    SameDay(s, rest, Sending(slot));
    SameDay(s, rest, Counting(slot));
    SentIsLogged(s, rest, slot);
    MessagesConserved(s, rest, slot);
    CountedIsTimes(s, rest, key);
    ReadyDelivers(Run(s, rest), slot, clock, 0, Compliance.Limit(slot.channel) - 1, workers);
    assert Compliance.KeyAt(slot, clock) == key;
  }

  lemma QuickIs(steps: seq<Step>, workers: nat)
    requires Quick(steps, workers)
    ensures WorkersBelow(steps, workers) && forall step | step in steps :: !step.Tick?
  {
  }

  lemma MorningState(slot: Slot, clock: nat, day: nat)
    requires clock == day * Compliance.DAY
    ensures var s := Next(START, Tick(clock));
            && Today(s) == day && s.log == [] && Delivering(s, slot) == {} && SentTo(s.log, slot) == 0
            && (forall w :: Counted(s, w)) && forall key :: s.compliance.counted[key] == 0
  {
  }

  lemma TimesAfterTick(clock: nat, rest: seq<Step>, kind: Kind)
    requires !kind(START, Tick(clock))
    ensures Times(START, [Tick(clock)] + rest, kind) == Times(Next(START, Tick(clock)), rest, kind)
  {
    hide Next;
    assert ([Tick(clock)] + rest)[1..] == rest;
  }

  lemma ReadyDelivers(s: State, slot: Slot, clock: nat, n: nat, c: nat, k: nat)
    requires Ready(s, slot, clock, n, c, k)
    ensures |Delivering(s, slot)| == k && s.compliance.counted[Compliance.KeyAt(slot, clock)] == c
  {
    AllBelow(Delivering(s, slot), k);
  }

  /** With W workers and at most `losses` messages lost after their send, a contact
      gets at most `bound` messages a day, in every run, exactly when the bound is
      at least limit + W - 1 + losses: the daily limit is no limit on messages. */
  lemma MessagesLimitExactly(key: Compliance.Key, workers: nat, losses: nat, bound: nat)
    requires workers > 0 && key.slot.identifier != ""
    ensures bound >= Compliance.Limit(key.slot.channel) + workers - 1 + losses
            <==> forall steps | WorkersBelow(steps, workers)
                                && Times(START, steps, OnDay(Losing(key.slot), key.day)) <= losses ::
                   Times(START, steps, OnDay(Sending(key.slot), key.day)) <= bound
  {
    hide WorkersBelow, Times;
    if bound >= Compliance.Limit(key.slot.channel) + workers - 1 + losses {
      forall steps | WorkersBelow(steps, workers) && Times(START, steps, OnDay(Losing(key.slot), key.day)) <= losses
        ensures Times(START, steps, OnDay(Sending(key.slot), key.day)) <= bound
      {
        MessagesBound(steps, workers, key);
      }
    } else {
      var steps := MessagesBoundIsReached(key, workers, losses);
      assert WorkersBelow(steps, workers);
    }
  }
}
