/** The approval endpoint and the dispatch task as uninterrupted programs over
    the stored state: each performs exactly the protocol's steps in a row. */
module OutreachTasks {
  import opened Options
  import opened Outreach
  import Compliance
  import Tracking
  import VaultSession
  import opened PiiMasker

  /** `token` is what the provider was given in place of the contact. */
  datatype Outcome =
    | NotFound
    | MissingContact
    | Blocked
    | ProviderFailed(token: string)
    | Dispatched(pid: string, token: string)

  function ApproveSteps(req: nat, rm: nat, c: nat, change: Change): seq<Step> {
    [ApproveCheck(req, rm, c, change), ApproveCommit(req), ApproveEnqueue(req)]
  }

  /** The steps of one uninterrupted dispatch; those after an early exit do nothing. */
  function DispatchSteps(w: nat, task: Task, reply: Option<string>, requeue: bool): seq<Step> {
    [Load(w, task), DndCheck(w), RateCheck(w)] + LastSteps(w, reply, requeue)
  }

  function LastSteps(w: nat, reply: Option<string>, requeue: bool): seq<Step> {
    match reply
    case Some(pid) => [Send(w, pid), MarkSent(w), Increment(w)]
    case None => [Fail(w, requeue), Tick(0), Tick(0)]
  }

  // ---------- single steps from an idle or a waiting worker ----------

  lemma CommitThenEnqueue(s: State, req: nat, a: Approval)
    requires req !in s.approvals && a.committed.None? && a.c in s.tracking.rows
    ensures var s1 := s.(approvals := s.approvals[req := a]);
            var s2 := s.(approvals := s.approvals[req := a.(committed := Some(|s.log|))],
                         tracking := Edited(s.tracking, a.c, a.change),
                         log := s.log + [Approved(a.c, a.rm, a.change, a.checked)]);
            Next(s1, ApproveCommit(req)) == s2
  {
  }

  function Edited(t: Tracking.State, c: nat, change: Change): Tracking.State
    requires c in t.rows
  {
    t.(rows := t.rows[c := t.rows[c].(content := Tracking.Changed(t.rows[c].content, change))])
  }

  lemma Enqueue(s: State, req: nat, a: Approval)
    requires req !in s.approvals && a.committed.Some?
    ensures Next(s.(approvals := s.approvals[req := a]), ApproveEnqueue(req))
         == s.(queue := s.queue + multiset{Task(a.c, a.committed.value)})
  {
    assert s.approvals[req := a] - {req} == s.approvals;
    assert s.log + [] == s.log;
  }

  lemma Busy(s: State, w: nat, k: Worker) returns (t: State)
    requires w !in s.workers
    ensures t == s.(workers := s.workers[w := k]) && t.workers - {w} == s.workers
  {
    t := s.(workers := s.workers[w := k]);
    assert s.workers[w := k] - {w} == s.workers;
  }

  lemma LoadStep(s: State, w: nat, task: Task)
    requires CanLoad(s, w, task)
    ensures var row := s.tracking.rows[task.c];
            var s' := s.(queue := s.queue - multiset{task},
                         log := s.log + [Loaded(w, task.c, row.content, task.approval)]);
            Next(s, Load(w, task))
            == if row.slot.identifier == "" then s'
               else s'.(workers := s.workers[w := Worker(task, row.content, row.slot, |s.log|, AtLoad)])
  {
  }

  lemma DndStep(s: State, w: nat, k: Worker)
    requires w !in s.workers && k.phase.AtLoad?
    ensures Next(s.(workers := s.workers[w := k]), DndCheck(w))
         == if ListingOf(k.slot) in s.dnd then s
            else s.(workers := s.workers[w := k.(phase := DndClear(|s.log|))], log := s.log + [DndPassed(w, k.slot)])
  {
    var t := Busy(s, w, k);
    assert s.log + [] == s.log;
  }

  lemma RateStep(s: State, w: nat, k: Worker)
    requires w !in s.workers && w !in s.compliance.inflight && k.phase.DndClear?
    ensures Next(s.(workers := s.workers[w := k]), RateCheck(w))
         == if !Compliance.Passes(s.compliance, k.slot) then s
            else s.(workers := s.workers[w := k.(phase := RateClear(k.phase.dnd))],
                    compliance := s.compliance.(inflight := s.compliance.inflight[w := k.slot]))
  {
    var t := Busy(s, w, k);
    assert s.log + [] == s.log;
  }

  lemma SendStep(s: State, w: nat, k: Worker, pid: string)
    requires w !in s.workers && k.phase.RateClear?
    ensures Next(s.(workers := s.workers[w := k]), Send(w, pid))
         == s.(workers := s.workers[w := k.(phase := Accepted(pid))],
               log := s.log + [Sent(w, k.task.c, k.slot, k.content, k.loaded, k.phase.dnd)])
  {
  }

  lemma MarkStep(s: State, w: nat, k: Worker)
    requires w !in s.workers && k.phase.Accepted?
    ensures Next(s.(workers := s.workers[w := k]), MarkSent(w))
         == s.(workers := s.workers[w := k.(phase := Committed)],
               tracking := Tracking.Next(s.tracking, Tracking.Mark(k.task.c, k.phase.pid, s.compliance.clock)),
               log := s.log + [Marked(k.task.c)])
  {
  }

  lemma IncrementStep(s: State, w: nat, k: Worker, c: Compliance.State)
    requires w !in s.workers && k.phase.Committed? && w !in c.inflight
    requires s.compliance == c.(inflight := c.inflight[w := k.slot])
    ensures Next(s.(workers := s.workers[w := k]), Increment(w))
         == s.(compliance := c.(counters := Compliance.Incremented(c.counters, k.slot, c.clock),
                                counted := c.counted + multiset{Compliance.KeyAt(k.slot, c.clock)}))
  {
    var t := Busy(s, w, k);
    assert s.log + [] == s.log;
    assert c.inflight[w := k.slot] - {w} == c.inflight;
  }

  lemma FailStep(s: State, w: nat, k: Worker, c: Compliance.State, requeue: bool)
    requires w !in s.workers && w !in c.inflight && s.compliance == c.(inflight := c.inflight[w := k.slot])
    ensures Next(s.(workers := s.workers[w := k]), Fail(w, requeue))
         == s.(queue := if requeue then s.queue + multiset{k.task} else s.queue, compliance := c)
  {
    var t := Busy(s, w, k);
    assert s.log + [] == s.log;
    assert c.inflight[w := k.slot] - {w} == c.inflight;
  }

  /** Steps that need a worker do nothing when it is idle. */
  lemma IdleStep(s: State, w: nat, step: Step)
    requires w !in s.workers && w !in s.compliance.inflight
    requires (step.DndCheck? || step.RateCheck? || step.Send? || step.MarkSent? || step.Increment? || step.Fail?)
        && step.w == w
    ensures Next(s, step) == s
  {
    hide Compliance.Passes, Compliance.Incremented;
    assert s.log + [] == s.log;
    assert s.workers - {w} == s.workers && s.compliance.inflight - {w} == s.compliance.inflight;
  }

  lemma LoadFailsStep(s: State, task: Task, requeue: bool)
    ensures Next(s, LoadFails(task, requeue)) == s.(queue := if requeue then s.queue else s.queue - multiset{task})
  {
    assert s.log + [] == s.log;
  }

  lemma NoTick(s: State)
    ensures Next(s, Tick(0)) == s
  {
    assert s.log + [] == s.log;
  }

  lemma LastIdle(s: State, w: nat, reply: Option<string>, requeue: bool)
    requires w !in s.workers && w !in s.compliance.inflight
    ensures Run(s, LastSteps(w, reply, requeue)) == s
  {
    var steps := LastSteps(w, reply, requeue);
    RunThree(s, steps);
    IdleStep(s, w, steps[0]);
    if reply.Some? {
      IdleStep(s, w, steps[1]);
      IdleStep(s, w, steps[2]);
    } else {
      NoTick(s);
    }
  }

  // ---------- a whole approval, a whole dispatch ----------

  lemma ApproveRuns(s: State, req: nat, rm: nat, c: nat, change: Change)
    requires req !in s.approvals
    ensures Run(s, ApproveSteps(req, rm, c, change))
         == if !CheckAccepts(s, req, rm, c) then s
            else s.(tracking := Edited(s.tracking, c, change), queue := s.queue + multiset{Task(c, |s.log| + 1)},
                    log := s.log + [Checked(c, rm), Approved(c, rm, change, |s.log|)])
  {
    hide Next, Run;
    RunThree(s, ApproveSteps(req, rm, c, change));
    if CheckAccepts(s, req, rm, c) {
      ApproveAccepted(s, req, rm, c, change);
    } else {
      ApproveRefused(s, req, rm, c, change);
    }
  }

  lemma CheckStep(s: State, req: nat, rm: nat, c: nat, change: Change)
    requires CheckAccepts(s, req, rm, c)
    ensures Next(s, ApproveCheck(req, rm, c, change))
         == s.(approvals := s.approvals[req := Approval(c, rm, change, |s.log|, None)], log := s.log + [Checked(c, rm)])
  {
  }

  lemma ApproveAccepted(s: State, req: nat, rm: nat, c: nat, change: Change)
    requires CheckAccepts(s, req, rm, c)
    ensures Next(Next(Next(s, ApproveCheck(req, rm, c, change)), ApproveCommit(req)), ApproveEnqueue(req))
         == s.(tracking := Edited(s.tracking, c, change), queue := s.queue + multiset{Task(c, |s.log| + 1)},
               log := s.log + [Checked(c, rm), Approved(c, rm, change, |s.log|)])
  {
    hide Next, Edited;
    var a := Approval(c, rm, change, |s.log|, None);
    var s1 := s.(log := s.log + [Checked(c, rm)]);
    CheckStep(s, req, rm, c, change);
    CommitThenEnqueue(s1, req, a);
    var s2 := s1.(tracking := Edited(s.tracking, c, change), log := s1.log + [Approved(c, rm, change, |s.log|)]);
    Enqueue(s2, req, a.(committed := Some(|s1.log|)));
    TwoMore(s.log, Checked(c, rm), Approved(c, rm, change, |s.log|));
  }

  lemma TwoMore<T>(s: seq<T>, x: T, y: T)
    ensures s + [x] + [y] == s + [x, y]
  {
  }

  lemma ApproveRefused(s: State, req: nat, rm: nat, c: nat, change: Change)
    requires req !in s.approvals && !CheckAccepts(s, req, rm, c)
    ensures Next(s, ApproveCheck(req, rm, c, change)) == s
    ensures Next(s, ApproveCommit(req)) == s && Next(s, ApproveEnqueue(req)) == s
  {
    assert s.log + [] == s.log;
  }

  lemma FirstThree(s: State, w: nat, task: Task)
    requires w !in s.workers && w !in s.compliance.inflight && CanLoad(s, w, task)
    ensures var row := s.tracking.rows[task.c];
            var s1 := s.(queue := s.queue - multiset{task},
                         log := s.log + [Loaded(w, task.c, row.content, task.approval)]);
            var s2 := s1.(log := s1.log + [DndPassed(w, row.slot)]);
            var k := Worker(task, row.content, row.slot, |s.log|, RateClear(|s1.log|));
            Next(Next(Next(s, Load(w, task)), DndCheck(w)), RateCheck(w))
            == if row.slot.identifier == "" || ListingOf(row.slot) in s.dnd then s1
               else if !Compliance.Passes(s.compliance, row.slot) then s2
               else s2.(workers := s.workers[w := k],
                        compliance := s.compliance.(inflight := s.compliance.inflight[w := row.slot]))
  {
    var row := s.tracking.rows[task.c];
    var s1 := s.(queue := s.queue - multiset{task}, log := s.log + [Loaded(w, task.c, row.content, task.approval)]);
    var k := Worker(task, row.content, row.slot, |s.log|, AtLoad);
    LoadStep(s, w, task);
    if row.slot.identifier == "" {
      IdleStep(s1, w, DndCheck(w));
      IdleStep(s1, w, RateCheck(w));
    } else {
      DndStep(s1, w, k);
      if ListingOf(row.slot) in s.dnd {
        IdleStep(s1, w, RateCheck(w));
      } else {
        RateStep(s1.(log := s1.log + [DndPassed(w, row.slot)]), w, k.(phase := DndClear(|s1.log|)));
      }
    }
  }

  lemma LastThree(s: State, w: nat, k: Worker, c: Compliance.State, reply: Option<string>, requeue: bool)
    requires w !in s.workers && k.phase.RateClear? && w !in c.inflight
    requires s.compliance == c.(inflight := c.inflight[w := k.slot])
    ensures Run(s.(workers := s.workers[w := k]), LastSteps(w, reply, requeue))
         == match reply
            case None => s.(queue := if requeue then s.queue + multiset{k.task} else s.queue, compliance := c)
            case Some(pid) =>
              s.(tracking := Tracking.Next(s.tracking, Tracking.Mark(k.task.c, pid, c.clock)),
                 log := s.log + [Sent(w, k.task.c, k.slot, k.content, k.loaded, k.phase.dnd)] + [Marked(k.task.c)],
                 compliance := c.(counters := Compliance.Incremented(c.counters, k.slot, c.clock),
                                  counted := c.counted + multiset{Compliance.KeyAt(k.slot, c.clock)}))
  {
    RunThree(s.(workers := s.workers[w := k]), LastSteps(w, reply, requeue));
    match reply
    case None =>
      FailStep(s, w, k, c, requeue);
      NoTick(s.(queue := if requeue then s.queue + multiset{k.task} else s.queue, compliance := c));
    case Some(pid) =>
      SendStep(s, w, k, pid);
      var s1 := s.(log := s.log + [Sent(w, k.task.c, k.slot, k.content, k.loaded, k.phase.dnd)]);
      MarkStep(s1, w, k.(phase := Accepted(pid)));
      var s2 := s1.(tracking := Tracking.Next(s.tracking, Tracking.Mark(k.task.c, pid, c.clock)),
                    log := s1.log + [Marked(k.task.c)]);
      IncrementStep(s2, w, k.(phase := Committed), c);
  }

  function AfterLoad(s: State, w: nat, task: Task): State
    requires task.c in s.tracking.rows
  {
    s.(queue := s.queue - multiset{task},
       log := s.log + [Loaded(w, task.c, s.tracking.rows[task.c].content, task.approval)])
  }

  function AfterDnd(s: State, w: nat, task: Task): State
    requires task.c in s.tracking.rows
  {
    AfterLoad(s, w, task).(log := AfterLoad(s, w, task).log + [DndPassed(w, s.tracking.rows[task.c].slot)])
  }

  /** The provider accepts, the campaign is marked, the counter goes up; or the
      provider fails and the task may go back into the queue. */
  function AfterReply(s: State, w: nat, task: Task, row: Tracking.Row, loaded: nat, reply: Option<string>,
                      requeue: bool): State
  {
    match reply
    case Some(pid) =>
      s.(log := s.log + [Sent(w, task.c, row.slot, row.content, loaded, loaded + 1)] + [Marked(task.c)],
         tracking := Tracking.Next(s.tracking, Tracking.Mark(task.c, pid, s.compliance.clock)),
         compliance := s.compliance.(
           counters := Compliance.Incremented(s.compliance.counters, row.slot, s.compliance.clock),
           counted := s.compliance.counted + multiset{Compliance.KeyAt(row.slot, s.compliance.clock)}))
    case None => s.(queue := if requeue then s.queue + multiset{task} else s.queue)
  }

  /** The state an uninterrupted dispatch leaves, by where it stops. */
  function AfterDispatch(s: State, w: nat, task: Task, reply: Option<string>, requeue: bool): State
    requires task.c in s.tracking.rows
  {
    var slot := s.tracking.rows[task.c].slot;
    if slot.identifier == "" || ListingOf(slot) in s.dnd then AfterLoad(s, w, task)
    else if !Compliance.Passes(s.compliance, slot) then AfterDnd(s, w, task)
    else AfterReply(AfterDnd(s, w, task), w, task, s.tracking.rows[task.c], |s.log|, reply, requeue)
  }

  lemma DispatchRuns(s: State, w: nat, task: Task, reply: Option<string>, requeue: bool)
    requires w !in s.workers && w !in s.compliance.inflight && CanLoad(s, w, task)
    ensures Run(s, DispatchSteps(w, task, reply, requeue)) == AfterDispatch(s, w, task, reply, requeue)
  {
    hide Next, Run, Compliance.Passes;
    var front := [Load(w, task), DndCheck(w), RateCheck(w)];
    var row := s.tracking.rows[task.c];
    RunAppend(s, front, LastSteps(w, reply, requeue));
    RunThree(s, front);
    FirstThree(s, w, task);
    if row.slot.identifier == "" || ListingOf(row.slot) in s.dnd {
      LastIdle(AfterLoad(s, w, task), w, reply, requeue);
    } else if !Compliance.Passes(s.compliance, row.slot) {
      LastIdle(AfterDnd(s, w, task), w, reply, requeue);
    } else {
      var t := AfterDnd(s, w, task).(compliance := s.compliance.(inflight := s.compliance.inflight[w := row.slot]));
      LastThree(t, w, Worker(task, row.content, row.slot, |s.log|, RateClear(|s.log| + 1)), s.compliance, reply,
                requeue);
    }
  }

  /** The contact stands on the list of its channel: addresses for email, numbers
      for the others. */
  predicate OptedOut(dnd: set<Listing>, slot: Slot) {
    (slot.channel.Email? && EmailListing(slot.identifier) in dnd)
    || (!slot.channel.Email? && PhoneListing(slot.identifier) in dnd)
  }

  lemma StopsIfOptedOut(s: State, w: nat, task: Task, reply: Option<string>, requeue: bool)
    requires task.c in s.tracking.rows
    ensures OptedOut(s.dnd, s.tracking.rows[task.c].slot) ==>
            var t := AfterDispatch(s, w, task, reply, requeue);
            && !Reaches(s, s.tracking.rows[task.c].slot)
            && t.log == s.log + [Loaded(w, task.c, s.tracking.rows[task.c].content, task.approval)]
            && t.tracking == s.tracking && t.compliance == s.compliance
  {
  }

  /** A dispatch to an opted-out contact takes the task, loads the campaign and
      ends: nothing is sent, counted or marked. */
  lemma OptedOutIsBlocked(s: State, w: nat, task: Task, reply: Option<string>, requeue: bool)
    requires w !in s.workers && w !in s.compliance.inflight && CanLoad(s, w, task)
    requires OptedOut(s.dnd, s.tracking.rows[task.c].slot)
    ensures Run(s, DispatchSteps(w, task, reply, requeue))
         == s.(queue := s.queue - multiset{task},
               log := s.log + [Loaded(w, task.c, s.tracking.rows[task.c].content, task.approval)])
  {
    hide Run, DispatchSteps, AfterDnd, AfterReply, Compliance.Passes;
    DispatchRuns(s, w, task, reply, requeue);
  }

  function ContactOf(slot: Slot): VaultSession.Contact {
    if slot.channel.Email? then VaultSession.Email(slot.identifier) else VaultSession.Phone(slot.identifier)
  }

  /** `session_id or uuid4()`. */
  function SessionOf(content: Content, newSession: string): string {
    if content.session.Some? && content.session.value != "" then content.session.value else newSession
  }

  /** The dispatch gets past the contact and compliance checks. */
  predicate Reaches(s: State, slot: Slot) {
    slot.identifier != "" && ListingOf(slot) !in s.dnd && Compliance.Passes(s.compliance, slot)
  }

  class Desk {
    const masker: Masker
    var tracking: Tracking.State
    var compliance: Compliance.State
    var approvals: map<nat, Approval>
    var queue: multiset<Task>
    var workers: map<nat, Worker>
    var dnd: set<Listing>
    var log: seq<Event>

    function Value(): State reads this {
      State(tracking, compliance, approvals, queue, workers, dnd, log)
    }

    constructor ()
      ensures Value() == START && fresh(masker) && masker.Valid() && masker.vaults == map[]
    {
      masker := new Masker();
      tracking, compliance := Tracking.START, Compliance.START;
      approvals, queue, workers, dnd, log := map[], multiset{}, map[], {}, [];
    }

    /** Answers 404, 409 or 202. */
    method Approve(req: nat, rm: nat, c: nat, change: Change) returns (code: nat)
      requires req !in approvals
      modifies this
      ensures code == (if c !in old(tracking).rows || old(tracking).rows[c].rm != rm then 404
                       else if old(tracking).rows[c].sentAt.Some? then 409 else 202)
      ensures Value() == Run(old(Value()), ApproveSteps(req, rm, c, change))
      ensures code == 202 ==>
                var before := old(tracking).rows[c];
                && c in tracking.rows && tracking.rows[c].slot == before.slot
                && tracking.rows[c].content.body == (if change.edit == "" then before.content.body else change.edit)
                && tracking.rows[c].content.session
                   == (if change.session.None? then before.content.session else change.session)
                && queue == old(queue) + multiset{Task(c, |old(log)| + 1)}
      ensures code != 202 ==> Value() == old(Value())
    {
      hide Run;
      ApproveRuns(Value(), req, rm, c, change);
      TwoMore(log, Checked(c, rm), Approved(c, rm, change, |log|));
      if c !in tracking.rows || tracking.rows[c].rm != rm {
        return 404;
      }
      if tracking.rows[c].sentAt.Some? {
        return 409;
      }
      var checked := |log|;
      var content := tracking.rows[c].content;
      if change.edit != "" {
        content := content.(body := change.edit);
      }
      if change.session.Some? {
        content := content.(session := change.session);
      }
      tracking := tracking.(rows := tracking.rows[c := tracking.rows[c].(content := content)]);
      log := log + [Checked(c, rm), Approved(c, rm, change, checked)];
      queue := queue + multiset{Task(c, checked + 1)};
      return 202;
    }

    /** `related` says whether the campaign's opportunity and customer exist; `reply` is
        the provider's message id, or none if it raised; `newSession` is used for a
        campaign without a session. */
    method Dispatch(w: nat, task: Task, related: bool, newSession: string, reply: Option<string>, requeue: bool)
      returns (outcome: Outcome)
      requires w !in workers && w !in compliance.inflight && task in queue
      requires masker.Valid()
      modifies this, masker
      ensures masker.Valid()
      ensures outcome.NotFound? <==> task.c !in old(tracking).rows || !related
      ensures outcome.NotFound? ==>
                Value() == Next(old(Value()), LoadFails(task, requeue)) && masker.vaults == old(masker.vaults)
      ensures !outcome.NotFound? ==> Value() == Run(old(Value()), DispatchSteps(w, task, reply, requeue))
      ensures !outcome.NotFound? ==>
                var row := old(tracking).rows[task.c];
                var chosen := row.content.session;
                var session := if chosen.None? || chosen.value == "" then newSession else chosen.value;
                var contact := if row.slot.channel.Email? then VaultSession.Email(row.slot.identifier)
                               else VaultSession.Phone(row.slot.identifier);
                var vault := VaultOf(old(masker.vaults), session);
                if Reaches(old(Value()), row.slot) then
                  && VaultOf(masker.vaults, session) == VaultSession.Apply(vault, VaultSession.TargetStep(contact))
                  && (forall s | s != session :: VaultOf(masker.vaults, s) == VaultOf(old(masker.vaults), s))
                  && outcome == (var token := VaultSession.Target(vault, contact).0;
                                 if reply.Some? then Dispatched(reply.value, token) else ProviderFailed(token))
                else
                  && masker.vaults == old(masker.vaults)
                  && outcome == if row.slot.identifier == "" then MissingContact else Blocked
      ensures outcome.Dispatched? ==>
                var row := old(tracking).rows[task.c];
                && tracking.rows == old(tracking).rows[task.c := row.(sentAt := Some(compliance.clock),
                                                                     providerId := reply)]
                && compliance.counted == old(compliance).counted
                                         + multiset{Compliance.KeyAt(row.slot, compliance.clock)}
                && log == old(log) + [Loaded(w, task.c, row.content, task.approval), DndPassed(w, row.slot)]
                          + [Sent(w, task.c, row.slot, row.content, |old(log)|, |old(log)| + 1), Marked(task.c)]
                && queue == old(queue) - multiset{task}
      ensures outcome.ProviderFailed? || outcome.Blocked? || outcome.MissingContact? ==>
                && tracking == old(tracking) && compliance == old(compliance)
                && queue == if outcome.ProviderFailed? && requeue then old(queue) else old(queue) - multiset{task}
      ensures !outcome.NotFound? && OptedOut(old(dnd), old(tracking).rows[task.c].slot) ==>
                && outcome == (if old(tracking).rows[task.c].slot.identifier == "" then MissingContact else Blocked)
                && log == old(log) + [Loaded(w, task.c, old(tracking).rows[task.c].content, task.approval)]
                && tracking == old(tracking) && compliance == old(compliance) && masker.vaults == old(masker.vaults)
    {
      hide Run, DispatchSteps, AfterDispatch, AfterLoad, Next, OptedOut, Reaches, Compliance.KeyAt, VaultSession.Target,
           VaultSession.Apply, VaultOf;
      if task.c !in tracking.rows || !related {
        LoadFailsStep(Value(), task, requeue);
        queue := if requeue then queue else queue - multiset{task};
        return NotFound;
      }
      DispatchRuns(Value(), w, task, reply, requeue);
      StopsIfOptedOut(Value(), w, task, reply, requeue);
      outcome := Attempt(w, task, newSession, reply, requeue);
    }

    /** From a loaded campaign on. */
    method Attempt(w: nat, task: Task, newSession: string, reply: Option<string>, requeue: bool)
      returns (outcome: Outcome)
      requires task in queue && task.c in tracking.rows && masker.Valid()
      modifies this, masker
      ensures masker.Valid() && !outcome.NotFound?
      ensures Value() == AfterDispatch(old(Value()), w, task, reply, requeue)
      ensures var row := old(tracking).rows[task.c];
              var chosen := row.content.session;
              var session := if chosen.None? || chosen.value == "" then newSession else chosen.value;
              var contact := if row.slot.channel.Email? then VaultSession.Email(row.slot.identifier)
                             else VaultSession.Phone(row.slot.identifier);
              var vault := VaultOf(old(masker.vaults), session);
              if Reaches(old(Value()), row.slot) then
                && VaultOf(masker.vaults, session) == VaultSession.Apply(vault, VaultSession.TargetStep(contact))
                && (forall s | s != session :: VaultOf(masker.vaults, s) == VaultOf(old(masker.vaults), s))
                && outcome == (var token := VaultSession.Target(vault, contact).0;
                               if reply.Some? then Dispatched(reply.value, token) else ProviderFailed(token))
              else
                && masker.vaults == old(masker.vaults)
                && outcome == if row.slot.identifier == "" then MissingContact else Blocked
      ensures outcome.Dispatched? ==>
                var row := old(tracking).rows[task.c];
                && tracking.rows == old(tracking).rows[task.c := row.(sentAt := Some(compliance.clock),
                                                                     providerId := reply)]
                && compliance.counted == old(compliance).counted
                                         + multiset{Compliance.KeyAt(row.slot, compliance.clock)}
                && log == old(log) + [Loaded(w, task.c, row.content, task.approval), DndPassed(w, row.slot)]
                          + [Sent(w, task.c, row.slot, row.content, |old(log)|, |old(log)| + 1), Marked(task.c)]
                && queue == old(queue) - multiset{task}
      ensures outcome.ProviderFailed? || outcome.Blocked? || outcome.MissingContact? ==>
                && tracking == old(tracking) && compliance == old(compliance)
                && queue == if outcome.ProviderFailed? && requeue then old(queue) else old(queue) - multiset{task}
    {
      hide AfterReply, Compliance.Passes, ListingOf, Compliance.KeyAt, VaultSession.Target, VaultSession.Apply, VaultOf;
      var row, loaded := tracking.rows[task.c], |log|;
      var passed := PassChecks(w, task);
      if !passed {
        return if row.slot.identifier == "" then MissingContact else Blocked;
      }
      outcome := Send(w, task, row, loaded, newSession, reply, requeue);
    }

    /** Chooses the token to send to, and delivers. */
    method Send(w: nat, task: Task, row: Tracking.Row, loaded: nat, newSession: string, reply: Option<string>,
                requeue: bool)
      returns (outcome: Outcome)
      requires task.c in tracking.rows && masker.Valid()
      modifies this, masker
      ensures masker.Valid()
      ensures Value() == AfterReply(old(Value()), w, task, row, loaded, reply, requeue)
      ensures var chosen := row.content.session;
              var session := if chosen.None? || chosen.value == "" then newSession else chosen.value;
              var contact := if row.slot.channel.Email? then VaultSession.Email(row.slot.identifier)
                             else VaultSession.Phone(row.slot.identifier);
              var vault := VaultOf(old(masker.vaults), session);
              && VaultOf(masker.vaults, session) == VaultSession.Apply(vault, VaultSession.TargetStep(contact))
              && (forall s | s != session :: VaultOf(masker.vaults, s) == VaultOf(old(masker.vaults), s))
              && outcome == (var token := VaultSession.Target(vault, contact).0;
                             if reply.Some? then Dispatched(reply.value, token) else ProviderFailed(token))
      ensures if reply.None? then
                && tracking == old(tracking) && compliance == old(compliance) && log == old(log)
                && queue == if requeue then old(queue) + multiset{task} else old(queue)
              else
                && queue == old(queue) && compliance.clock == old(compliance).clock
                && compliance.counted == old(compliance).counted
                                         + multiset{Compliance.KeyAt(row.slot, compliance.clock)}
                && log == old(log) + [Sent(w, task.c, row.slot, row.content, loaded, loaded + 1), Marked(task.c)]
                && tracking.rows == old(tracking).rows[task.c := old(tracking).rows[task.c].(
                                      sentAt := Some(compliance.clock), providerId := reply)]
    {
      hide AfterReply, Compliance.KeyAt;
      var token := masker.TargetToken(SessionOf(row.content, newSession), ContactOf(row.slot));
      Deliver(w, task, row, loaded, reply, requeue);
      outcome := if reply.Some? then Dispatched(reply.value, token) else ProviderFailed(token);
    }

    /** Loads the campaign and runs the contact, DND and limit checks. */
    method PassChecks(w: nat, task: Task) returns (passed: bool)
      requires task in queue && task.c in tracking.rows
      modifies this`queue, this`log
      ensures passed <==> Reaches(old(Value()), tracking.rows[task.c].slot)
      ensures var slot := tracking.rows[task.c].slot;
              Value() == if slot.identifier == "" || ListingOf(slot) in dnd then AfterLoad(old(Value()), w, task)
                         else AfterDnd(old(Value()), w, task)
      ensures passed ==> var row := tracking.rows[task.c];
                         log == old(log) + [Loaded(w, task.c, row.content, task.approval), DndPassed(w, row.slot)]
      ensures queue == old(queue) - multiset{task}
    {
      var row := tracking.rows[task.c];
      queue := queue - multiset{task};
      log := log + [Loaded(w, task.c, row.content, task.approval)];
      if row.slot.identifier == "" {
        return false;
      }
      if ListingOf(row.slot) in dnd {
        return false;
      }
      TwoMore(old(log), Loaded(w, task.c, row.content, task.approval), DndPassed(w, row.slot));
      log := log + [DndPassed(w, row.slot)];
      return Compliance.Passes(compliance, row.slot);
    }

    /** An accepted message is marked sent and counted. */
    method Deliver(w: nat, task: Task, row: Tracking.Row, loaded: nat, reply: Option<string>, requeue: bool)
      requires task.c in tracking.rows
      modifies this
      ensures Value() == AfterReply(old(Value()), w, task, row, loaded, reply, requeue)
      ensures if reply.None? then
                && tracking == old(tracking) && compliance == old(compliance) && log == old(log)
                && queue == if requeue then old(queue) + multiset{task} else old(queue)
              else
                && queue == old(queue) && compliance.clock == old(compliance).clock
                && compliance.counted == old(compliance).counted
                                         + multiset{Compliance.KeyAt(row.slot, compliance.clock)}
                && log == old(log) + [Sent(w, task.c, row.slot, row.content, loaded, loaded + 1), Marked(task.c)]
                && tracking.rows == old(tracking).rows[task.c := old(tracking).rows[task.c].(
                                      sentAt := Some(compliance.clock), providerId := reply)]
    {
      hide Compliance.Incremented;
      if reply.None? {
        queue := if requeue then queue + multiset{task} else queue;
        return;
      }
      TwoMore(log, Sent(w, task.c, row.slot, row.content, loaded, loaded + 1), Marked(task.c));
      log := log + [Sent(w, task.c, row.slot, row.content, loaded, loaded + 1)] + [Marked(task.c)];
      tracking := Tracking.Next(tracking, Tracking.Mark(task.c, reply.value, compliance.clock));
      compliance := compliance.(
        counters := Compliance.Incremented(compliance.counters, row.slot, compliance.clock),
        counted := compliance.counted + multiset{Compliance.KeyAt(row.slot, compliance.clock)});
    }
  }
}
