/** The outreach protocol: approvals, the task queue, dispatch workers, the DND
    registry, daily counters and receipts, interleaved one atomic access at a
    time. `log` records what happened; the properties are stated on it alone. */
module Outreach {
  import opened Options
  import Compliance
  import Tracking

  type Slot = Compliance.Slot
  type Content = Tracking.Content
  type Change = Tracking.Change

  datatype Listing = PhoneListing(number: string) | EmailListing(address: string)

  function ListingOf(slot: Slot): Listing {
    if slot.channel.Email? then EmailListing(slot.identifier) else PhoneListing(slot.identifier)
  }

  /** The manager who owns a campaign's customer, and the customer's contact. */
  datatype Origin = Origin(rm: nat, slot: Slot)

  /** `approval`, `loaded`, `dnd` and `checked` are positions in the log. */
  datatype Event =
    | Created(c: nat, origin: Origin, content: Content)
    | Checked(c: nat, rm: nat)
    | Approved(c: nat, rm: nat, change: Change, checked: nat)
    | DndSet(listing: Listing, listed: bool)
    | Loaded(w: nat, c: nat, content: Content, approval: nat)
    | DndPassed(w: nat, slot: Slot)
    | Sent(w: nat, c: nat, slot: Slot, content: Content, loaded: nat, dnd: nat)
    | Marked(c: nat)

  datatype Approval = Approval(c: nat, rm: nat, change: Change, checked: nat, committed: Option<nat>)

  datatype Task = Task(c: nat, approval: nat)

  datatype Phase =
    | AtLoad
    | DndClear(dnd: nat)
    | RateClear(dnd: nat)
    | Accepted(pid: string)
    | Committed

  datatype Worker = Worker(task: Task, content: Content, slot: Slot, loaded: nat, phase: Phase)

  datatype State = State(
    tracking: Tracking.State, compliance: Compliance.State,
    approvals: map<nat, Approval>, queue: multiset<Task>, workers: map<nat, Worker>,
    dnd: set<Listing>, log: seq<Event>)

  datatype Step =
    | Create(c: nat, rm: nat, slot: Slot, content: Content)
    | ApproveCheck(req: nat, rm: nat, c: nat, change: Change)
    | ApproveCommit(req: nat)
    | ApproveEnqueue(req: nat)
    | SetDnd(listing: Listing, listed: bool)
    | Load(w: nat, task: Task)
    | LoadFails(task: Task, requeue: bool)
    | DndCheck(w: nat)
    | RateCheck(w: nat)
    | Send(w: nat, pid: string)
    | MarkSent(w: nat)
    | Increment(w: nat)
    | Fail(w: nat, requeue: bool)
    | ReceiptRead(r: nat, c: nat, pid: string, kind: Tracking.Kind)
    | ReceiptCommit(r: nat)
    | Tick(seconds: nat)

  const START := State(Tracking.START, Compliance.START, map[], multiset{}, map[], {}, [])

  // ---------- the three components of a step ----------

  function TrackStep(s: State, step: Step): Tracking.Step {
    match step
    case Create(c, rm, slot, content) => Tracking.Create(c, rm, slot, content)
    case ApproveCommit(req) =>
      if CommitDue(s, req) then Tracking.Edit(s.approvals[req].c, s.approvals[req].change) else Tracking.Skip
    case MarkSent(w) =>
      if w in s.workers && s.workers[w].phase.Accepted?
      then Tracking.Mark(s.workers[w].task.c, s.workers[w].phase.pid, s.compliance.clock) else Tracking.Skip
    case ReceiptRead(r, c, pid, kind) => Tracking.ReceiptRead(r, c, pid, kind)
    case ReceiptCommit(r) => Tracking.ReceiptCommit(r, s.compliance.clock)
    case _ => Tracking.Skip
  }

  function CountStep(s: State, step: Step): Compliance.Step {
    match step
    case RateCheck(w) =>
      if w in s.workers && s.workers[w].phase.DndClear?
      then Compliance.Check(w, s.workers[w].slot) else Compliance.Idle
    case Increment(w) =>
      if w in s.workers && s.workers[w].phase.Committed? then Compliance.Increment(w) else Compliance.Idle
    case Fail(w, _) => Compliance.Abort(w)
    case Tick(d) => Compliance.Tick(d)
    case _ => Compliance.Idle
  }

  /** The approval handler finds the campaign in the manager's portfolio, unsent. */
  predicate CheckAccepts(s: State, req: nat, rm: nat, c: nat) {
    && req !in s.approvals && c in s.tracking.rows
    && s.tracking.rows[c].rm == rm && s.tracking.rows[c].sentAt.None?
  }

  predicate CommitDue(s: State, req: nat) { req in s.approvals && s.approvals[req].committed.None? }

  predicate EnqueueDue(s: State, req: nat) { req in s.approvals && s.approvals[req].committed.Some? }

  predicate CanLoad(s: State, w: nat, t: Task) {
    w !in s.workers && t in s.queue && t.c in s.tracking.rows
  }

  predicate Clear(s: State, w: nat) {
    w in s.workers && s.workers[w].phase.AtLoad? && ListingOf(s.workers[w].slot) !in s.dnd
  }

  /** What the step appends to the log. */
  function Logged(s: State, step: Step): seq<Event> {
    match step
    case Create(c, rm, slot, content) => if c in s.tracking.rows then [] else [Created(c, Origin(rm, slot), content)]
    case ApproveCheck(req, rm, c, _) => if CheckAccepts(s, req, rm, c) then [Checked(c, rm)] else []
    case ApproveCommit(req) =>
      if CommitDue(s, req)
      then [Approved(s.approvals[req].c, s.approvals[req].rm, s.approvals[req].change, s.approvals[req].checked)]
      else []
    case SetDnd(l, listed) => [DndSet(l, listed)]
    case Load(w, t) => if CanLoad(s, w, t) then [Loaded(w, t.c, s.tracking.rows[t.c].content, t.approval)] else []
    case DndCheck(w) => if Clear(s, w) then [DndPassed(w, s.workers[w].slot)] else []
    case Send(w, _) =>
      if w in s.workers && s.workers[w].phase.RateClear?
      then var k := s.workers[w]; [Sent(w, k.task.c, k.slot, k.content, k.loaded, k.phase.dnd)] else []
    case MarkSent(w) =>
      if w in s.workers && s.workers[w].phase.Accepted? then [Marked(s.workers[w].task.c)] else []
    case _ => []
  }

  function Approvals(s: State, step: Step): map<nat, Approval> {
    match step
    case ApproveCheck(req, rm, c, change) =>
      if CheckAccepts(s, req, rm, c) then s.approvals[req := Approval(c, rm, change, |s.log|, None)] else s.approvals
    case ApproveCommit(req) =>
      if CommitDue(s, req) then s.approvals[req := s.approvals[req].(committed := Some(|s.log|))] else s.approvals
    case ApproveEnqueue(req) => if EnqueueDue(s, req) then s.approvals - {req} else s.approvals
    case _ => s.approvals
  }

  function Queue(s: State, step: Step): multiset<Task> {
    match step
    case ApproveEnqueue(req) =>
      if EnqueueDue(s, req) then s.queue + multiset{Task(s.approvals[req].c, s.approvals[req].committed.value)}
      else s.queue
    case Load(w, t) => if CanLoad(s, w, t) then s.queue - multiset{t} else s.queue
    case LoadFails(t, requeue) => if requeue then s.queue else s.queue - multiset{t}
    case Fail(w, requeue) =>
      if w in s.workers && requeue then s.queue + multiset{s.workers[w].task} else s.queue
    case _ => s.queue
  }

  function Workers(s: State, step: Step): map<nat, Worker> {
    match step
    case Load(w, t) =>
      if CanLoad(s, w, t) && s.tracking.rows[t.c].slot.identifier != ""  // else failed_missing_contact
      then s.workers[w := Worker(t, s.tracking.rows[t.c].content, s.tracking.rows[t.c].slot, |s.log|, AtLoad)]
      else s.workers
    case DndCheck(w) =>
      if !(w in s.workers && s.workers[w].phase.AtLoad?) then s.workers
      else if Clear(s, w) then s.workers[w := s.workers[w].(phase := DndClear(|s.log|))]
      else s.workers - {w}  // blocked_compliance
    case RateCheck(w) =>
      if !(w in s.workers && s.workers[w].phase.DndClear?) then s.workers
      else if Compliance.Passes(s.compliance, s.workers[w].slot)
      then s.workers[w := s.workers[w].(phase := RateClear(s.workers[w].phase.dnd))]
      else s.workers - {w}  // blocked_compliance
    case Send(w, pid) =>
      if w in s.workers && s.workers[w].phase.RateClear?
      then s.workers[w := s.workers[w].(phase := Accepted(pid))] else s.workers
    case MarkSent(w) =>
      if w in s.workers && s.workers[w].phase.Accepted?
      then s.workers[w := s.workers[w].(phase := Committed)] else s.workers
    case Increment(w) =>
      if w in s.workers && s.workers[w].phase.Committed? then s.workers - {w} else s.workers
    case Fail(w, _) => s.workers - {w}
    case _ => s.workers
  }

  function Registry(s: State, step: Step): set<Listing> {
    if step.SetDnd? then (if step.listed then s.dnd + {step.listing} else s.dnd - {step.listing}) else s.dnd
  }

  function Next(s: State, step: Step): State {
    State(Tracking.Next(s.tracking, TrackStep(s, step)), Compliance.Next(s.compliance, CountStep(s, step)),
          Approvals(s, step), Queue(s, step), Workers(s, step), Registry(s, step), s.log + Logged(s, step))
  }

  function Run(s: State, steps: seq<Step>): State
    decreases |steps|
  {
    if steps == [] then s else Run(Next(s, steps[0]), steps[1..])
  }

  // ---------- reading the log ----------

  function Revised(content: Option<Content>, change: Change): Option<Content> {
    if content.None? then None else Some(Tracking.Changed(content.value, change))
  }

  /** The campaign's content after these events. */
  function ContentAt(log: seq<Event>, c: nat): Option<Content> {
    if log == [] then None
    else
      var before, e := log[..|log| - 1], log[|log| - 1];
      if e.Created? && e.c == c then Some(e.content)
      else if e.Approved? && e.c == c then Revised(ContentAt(before, c), e.change)
      else ContentAt(before, c)
  }

  function OriginAt(log: seq<Event>, c: nat): Option<Origin> {
    if log == [] then None
    else
      var before, e := log[..|log| - 1], log[|log| - 1];
      if e.Created? && e.c == c then Some(e.origin) else OriginAt(before, c)
  }

  function DndAt(log: seq<Event>): set<Listing> {
    if log == [] then {}
    else
      var before, e := log[..|log| - 1], log[|log| - 1];
      if e.DndSet? then (if e.listed then DndAt(before) + {e.listing} else DndAt(before) - {e.listing})
      else DndAt(before)
  }

  // ---------- invariant ----------

  ghost predicate IsApproval(log: seq<Event>, i: nat, c: nat) {
    i < |log| && log[i].Approved? && log[i].c == c
  }

  ghost predicate NoReload(log: seq<Event>, w: nat, from: nat) {
    forall j | from < j < |log| :: !(log[j].Loaded? && log[j].w == w)
  }

  /** `w`'s dispatch of `c` began at `i` and nothing of it was started anew since. */
  ghost predicate DispatchBegan(log: seq<Event>, w: nat, c: nat, content: Content, i: nat) {
    && i < |log| && log[i].Loaded? && log[i].w == w && log[i].c == c && log[i].content == content
    && NoReload(log, w, i)
  }

  ghost predicate DndWasPassed(log: seq<Event>, w: nat, slot: Slot, loaded: nat, i: nat) {
    loaded < i < |log| && log[i] == DndPassed(w, slot)
  }

  /** What each event owes to the events before it. */
  ghost predicate Owed(before: seq<Event>, e: Event) {
    match e
    case Checked(c, rm) => Marked(c) !in before && OriginAt(before, c).Some? && OriginAt(before, c).value.rm == rm
    case Approved(c, rm, _, i) => i < |before| && before[i] == Checked(c, rm)
    case Loaded(_, c, content, i) => IsApproval(before, i, c) && ContentAt(before, c) == Some(content)
    case DndPassed(_, slot) => ListingOf(slot) !in DndAt(before)
    case Sent(w, c, slot, content, i, j) =>
      && DispatchBegan(before, w, c, content, i) && DndWasPassed(before, w, slot, i, j)
      && OriginAt(before, c).Some? && OriginAt(before, c).value.slot == slot
    case _ => true
  }

  ghost predicate LogOk(log: seq<Event>) {
    log == [] || (LogOk(log[..|log| - 1]) && Owed(log[..|log| - 1], log[|log| - 1]))
  }

  type Rows = map<nat, Tracking.Row>

  /** The row agrees with what the log says of its campaign. */
  ghost predicate RowMatch(rows: Rows, log: seq<Event>, c: nat) {
    if c in rows then
      && ContentAt(log, c) == Some(rows[c].content)
      && OriginAt(log, c) == Some(Origin(rows[c].rm, rows[c].slot))
      && (rows[c].sentAt.None? <==> Marked(c) !in log)
    else OriginAt(log, c).None? && Marked(c) !in log
  }

  ghost predicate ApprovalOk(rows: Rows, log: seq<Event>, a: Approval) {
    && a.c in rows && a.checked < |log| && log[a.checked] == Checked(a.c, a.rm)
    && (a.committed.Some? ==> IsApproval(log, a.committed.value, a.c))
  }

  ghost predicate TaskOk(rows: Rows, log: seq<Event>, t: Task) {
    t.c in rows && IsApproval(log, t.approval, t.c)
  }

  ghost predicate WorkerOk(rows: Rows, log: seq<Event>, w: nat, k: Worker) {
    && TaskOk(rows, log, k.task) && k.slot == rows[k.task.c].slot
    && DispatchBegan(log, w, k.task.c, k.content, k.loaded)
    && (k.phase.DndClear? || k.phase.RateClear? ==> DndWasPassed(log, w, k.slot, k.loaded, k.phase.dnd))
  }

  ghost predicate Inv(s: State) {
    && s.dnd == DndAt(s.log) && LogOk(s.log) && (forall c :: RowMatch(s.tracking.rows, s.log, c))
    && (forall r | r in s.approvals :: ApprovalOk(s.tracking.rows, s.log, s.approvals[r]))
    && (forall t | t in s.queue :: TaskOk(s.tracking.rows, s.log, t))
    && (forall w | w in s.workers :: WorkerOk(s.tracking.rows, s.log, w, s.workers[w]))
  }

  // ---------- what one more event changes ----------

  lemma ReadsAfter(log: seq<Event>, e: Event, c: nat)
    ensures ContentAt(log + [e], c) == if e.Created? && e.c == c then Some(e.content)
                                       else if e.Approved? && e.c == c then Revised(ContentAt(log, c), e.change)
                                       else ContentAt(log, c)
    ensures OriginAt(log + [e], c) == if e.Created? && e.c == c then Some(e.origin) else OriginAt(log, c)
    ensures DndAt(log + [e]) == if !e.DndSet? then DndAt(log)
                                else if e.listed then DndAt(log) + {e.listing} else DndAt(log) - {e.listing}
    ensures LogOk(log + [e]) <==> LogOk(log) && Owed(log, e)
  {
    assert (log + [e])[..|log + [e]| - 1] == log;
  }

  lemma TaskGrows(rows: Rows, log: seq<Event>, rows': Rows, more: seq<Event>, t: Task)
    requires TaskOk(rows, log, t) && rows.Keys <= rows'.Keys
    ensures TaskOk(rows', log + more, t)
  {
  }

  lemma ApprovalGrows(rows: Rows, log: seq<Event>, rows': Rows, more: seq<Event>, a: Approval)
    requires ApprovalOk(rows, log, a) && rows.Keys <= rows'.Keys
    ensures ApprovalOk(rows', log + more, a)
  {
  }

  lemma WorkerGrows(rows: Rows, log: seq<Event>, rows': Rows, more: seq<Event>, w: nat, k: Worker)
    requires WorkerOk(rows, log, w, k) && rows.Keys <= rows'.Keys
    requires forall c | c in rows :: rows'[c].slot == rows[c].slot
    requires forall e | e in more :: !(e.Loaded? && e.w == w)
    ensures WorkerOk(rows', log + more, w, k)
  {
    TaskGrows(rows, log, rows', more, k.task);
    var longer := log + more;
    assert forall j | |log| <= j < |longer| :: longer[j] in more;
  }

  // ---------- each part of the invariant, step by step ----------

  /** An approval of campaign `c` is committed. */
  predicate EditDue(s: State, step: Step, c: nat) {
    step.ApproveCommit? && CommitDue(s, step.req) && s.approvals[step.req].c == c
  }

  predicate MarkDue(s: State, step: Step, c: nat) {
    step.MarkSent? && step.w in s.workers && s.workers[step.w].phase.Accepted? && s.workers[step.w].task.c == c
  }

  /** What a step does to one campaign's row. */
  lemma RowAfter(s: State, step: Step, c: nat)
    ensures var rows, rows' := s.tracking.rows, Next(s, step).tracking.rows;
            if c in rows then
              && c in rows' && rows'[c].rm == rows[c].rm && rows'[c].slot == rows[c].slot
              && rows'[c].content == (if EditDue(s, step, c)
                                      then Tracking.Changed(rows[c].content, s.approvals[step.req].change)
                                      else rows[c].content)
              && (rows'[c].sentAt.None? <==> rows[c].sentAt.None? && !MarkDue(s, step, c))
            else
              && (c in rows' <==> step.Create? && step.c == c)
              && (c in rows' ==> rows'[c] == Tracking.Draft(step.rm, step.slot, step.content))
  {
    hide Approvals, Queue, Workers, Registry, Compliance.Next, CountStep, Logged;
  }

  lemma RowsGrow(s: State, step: Step)
    ensures s.tracking.rows.Keys <= Next(s, step).tracking.rows.Keys
    ensures forall c | c in s.tracking.rows :: Next(s, step).tracking.rows[c].slot == s.tracking.rows[c].slot
  {
    hide Next;
    forall c | c in s.tracking.rows
      ensures c in Next(s, step).tracking.rows && Next(s, step).tracking.rows[c].slot == s.tracking.rows[c].slot
    {
      RowAfter(s, step, c);
    }
  }

  /** The change of one row that event `e` describes. */
  ghost predicate Follows(rows: Rows, rows': Rows, e: Event, c: nat) {
    if c in rows then
      && c in rows' && rows'[c].rm == rows[c].rm && rows'[c].slot == rows[c].slot && !(e.Created? && e.c == c)
      && rows'[c].content == (if e.Approved? && e.c == c then Tracking.Changed(rows[c].content, e.change)
                              else rows[c].content)
      && (rows'[c].sentAt.None? <==> rows[c].sentAt.None? && e != Marked(c))
    else if c in rows' then
      e == Created(c, Origin(rows'[c].rm, rows'[c].slot), rows'[c].content) && rows'[c].sentAt.None?
    else !(e.Created? && e.c == c) && e != Marked(c)
  }

  lemma RowMatchAfter(rows: Rows, log: seq<Event>, rows': Rows, e: Event, c: nat)
    requires RowMatch(rows, log, c) && Follows(rows, rows', e, c)
    ensures RowMatch(rows', log + [e], c)
  {
    ReadsAfter(log, e, c);
  }

  lemma RowKeeps(s: State, step: Step, c: nat)
    requires Inv(s)
    ensures RowMatch(Next(s, step).tracking.rows, s.log + Logged(s, step), c)
  {
    hide Inv, RowMatch, Next, Logged, Follows;
    RowMatches(s, c);
    var more := Logged(s, step);
    LogsAtMostOne(s, step);
    if more == [] {
      assert s.log + more == s.log;
      RowQuiet(s, step, c);
    } else {
      RowEvent(s, step, more[0], c);
      RowMatchAfter(s.tracking.rows, s.log, Next(s, step).tracking.rows, more[0], c);
    }
  }

  lemma RowMatches(s: State, c: nat)
    requires Inv(s)
    ensures RowMatch(s.tracking.rows, s.log, c)
  {
  }

  lemma LogsAtMostOne(s: State, step: Step)
    ensures Logged(s, step) == [] || Logged(s, step) == [Logged(s, step)[0]]
  {
  }

  lemma RowQuiet(s: State, step: Step, c: nat)
    requires RowMatch(s.tracking.rows, s.log, c) && Logged(s, step) == []
    ensures RowMatch(Next(s, step).tracking.rows, s.log, c)
  {
    hide Next;
    RowAfter(s, step, c);
  }

  lemma RowEvent(s: State, step: Step, e: Event, c: nat)
    requires Inv(s) && Logged(s, step) == [e]
    ensures Follows(s.tracking.rows, Next(s, step).tracking.rows, e, c)
  {
    hide Inv, Next, Logged, EditDue, MarkDue;
    RowAfter(s, step, c);
    EventMeans(s, step, e, c);
    if c !in s.tracking.rows && e.Marked? {
      MarkedExists(s, step, e);
    }
  }

  lemma EventMeans(s: State, step: Step, e: Event, c: nat)
    requires Logged(s, step) == [e]
    ensures e.Approved? && e.c == c <==> EditDue(s, step, c)
    ensures EditDue(s, step, c) ==> e.change == s.approvals[step.req].change
    ensures e == Marked(c) <==> MarkDue(s, step, c)
    ensures step.Create? ==>
              e == Created(step.c, Origin(step.rm, step.slot), step.content) && step.c !in s.tracking.rows
    ensures e.Created? ==> step.Create?
  {
  }

  lemma MarkedExists(s: State, step: Step, e: Event)
    requires Inv(s) && Logged(s, step) == [e] && e.Marked?
    ensures e.c in s.tracking.rows
  {
    hide RowMatch, LogOk;
    assert WorkerOk(s.tracking.rows, s.log, step.w, s.workers[step.w]);
  }

  /** The event a step logs is justified by the log so far. */
  lemma EventOwed(s: State, step: Step, e: Event)
    requires Inv(s) && Logged(s, step) == [e]
    ensures Owed(s.log, e)
  {
    match step
    case ApproveCheck(_, _, c, _) => assert RowMatch(s.tracking.rows, s.log, c);
    case ApproveCommit(req) => assert ApprovalOk(s.tracking.rows, s.log, s.approvals[req]);
    case Load(_, t) => assert TaskOk(s.tracking.rows, s.log, t) && RowMatch(s.tracking.rows, s.log, t.c);
    case Send(w, _) =>
      assert WorkerOk(s.tracking.rows, s.log, w, s.workers[w]);
      assert RowMatch(s.tracking.rows, s.log, s.workers[w].task.c);
    case _ =>
  }

  lemma LogKeeps(s: State, step: Step)
    requires Inv(s)
    ensures LogOk(s.log + Logged(s, step))
  {
    if Logged(s, step) == [] {
      assert s.log + [] == s.log;
    } else {
      var e := Logged(s, step)[0];
      assert Logged(s, step) == [e];
      EventOwed(s, step, e);
      ReadsAfter(s.log, e, 0);
    }
  }

  lemma RegistryKeeps(s: State, step: Step)
    requires s.dnd == DndAt(s.log)
    ensures Registry(s, step) == DndAt(s.log + Logged(s, step))
  {
    if Logged(s, step) == [] {
      assert s.log + [] == s.log;
    } else {
      var e := Logged(s, step)[0];
      assert Logged(s, step) == [e];
      ReadsAfter(s.log, e, 0);
    }
  }

  /** An approval is new, freshly committed, or as it was. */
  lemma ApprovalIs(s: State, step: Step, r: nat)
    requires r in Next(s, step).approvals
    ensures var a := Next(s, step).approvals[r];
            || (r in s.approvals && a == s.approvals[r])
            || (r in s.approvals && a == s.approvals[r].(committed := Some(|s.log|))
                && Logged(s, step) == [Approved(a.c, a.rm, a.change, a.checked)])
            || (a.c in s.tracking.rows && a.committed.None? && a.checked == |s.log|
                && Logged(s, step) == [Checked(a.c, a.rm)])
  {
    hide Tracking.Next, TrackStep, Queue, Workers, Registry, Compliance.Next, CountStep;
  }

  lemma ApprovalsKeep(s: State, step: Step, r: nat)
    requires Inv(s) && r in Next(s, step).approvals
    ensures ApprovalOk(Next(s, step).tracking.rows, s.log + Logged(s, step), Next(s, step).approvals[r])
  {
    hide Next, Logged, LogOk, DndAt, RowMatch;
    RowsGrow(s, step);
    ApprovalIs(s, step, r);
    if r in s.approvals {
      ApprovalGrows(s.tracking.rows, s.log, Next(s, step).tracking.rows, Logged(s, step), s.approvals[r]);
    }
  }

  lemma QueueKeeps(s: State, step: Step, task: Task)
    requires Inv(s) && task in Next(s, step).queue
    ensures TaskOk(Next(s, step).tracking.rows, Next(s, step).log, task)
  {
    RowsGrow(s, step);
    var t := Next(s, step);
    if task !in s.queue {
      if step.ApproveEnqueue? {
        assert ApprovalOk(s.tracking.rows, s.log, s.approvals[step.req]);
      } else {
        assert WorkerOk(s.tracking.rows, s.log, step.w, s.workers[step.w]);
      }
    }
    TaskGrows(s.tracking.rows, s.log, t.tracking.rows, Logged(s, step), task);
  }

  /** A worker moving on: same dispatch, and a DND position only if it was passed. */
  lemma PhaseMoves(rows: Rows, log: seq<Event>, w: nat, k: Worker, phase: Phase)
    requires WorkerOk(rows, log, w, k)
    requires phase.DndClear? || phase.RateClear? ==> DndWasPassed(log, w, k.slot, k.loaded, phase.dnd)
    ensures WorkerOk(rows, log, w, k.(phase := phase))
  {
  }

  lemma BusyNotLoaded(s: State, step: Step, w: nat)
    requires w in s.workers
    ensures forall e | e in Logged(s, step) :: !(e.Loaded? && e.w == w)
  {
  }

  lemma WorkersKeep(s: State, step: Step, w: nat)
    requires Inv(s) && w in Workers(s, step)
    ensures WorkerOk(Next(s, step).tracking.rows, s.log + Logged(s, step), w, Workers(s, step)[w])
  {
    RowsGrow(s, step);
    var rows', more := Next(s, step).tracking.rows, Logged(s, step);
    if w in s.workers {
      var k := s.workers[w];
      BusyNotLoaded(s, step, w);
      WorkerGrows(s.tracking.rows, s.log, rows', more, w, k);
      if Workers(s, step)[w] != k {
        WorkerMoves(s, step, w);
      }
    } else {
      WorkerStarts(s, step, w);
    }
  }

  lemma WorkerMoves(s: State, step: Step, w: nat)
    requires w in s.workers && w in Workers(s, step) && Workers(s, step)[w] != s.workers[w]
    requires WorkerOk(s.tracking.rows, s.log, w, s.workers[w])
    requires WorkerOk(Next(s, step).tracking.rows, s.log + Logged(s, step), w, s.workers[w])
    ensures WorkerOk(Next(s, step).tracking.rows, s.log + Logged(s, step), w, Workers(s, step)[w])
  {
    PhaseMoves(Next(s, step).tracking.rows, s.log + Logged(s, step), w, s.workers[w], Workers(s, step)[w].phase);
  }

  lemma WorkerStarts(s: State, step: Step, w: nat)
    requires Inv(s) && w !in s.workers && w in Workers(s, step)
    ensures WorkerOk(Next(s, step).tracking.rows, s.log + Logged(s, step), w, Workers(s, step)[w])
  {
    assert TaskOk(s.tracking.rows, s.log, step.task);
    RowsGrow(s, step);
    TaskGrows(s.tracking.rows, s.log, Next(s, step).tracking.rows, Logged(s, step), step.task);
  }

  lemma StepKeeps(s: State, step: Step)
    requires Inv(s)
    ensures Inv(Next(s, step))
  {
    LogKeeps(s, step);
    RegistryKeeps(s, step);
    var t := Next(s, step);
    forall c ensures RowMatch(t.tracking.rows, t.log, c) { RowKeeps(s, step, c); }
    forall r | r in t.approvals ensures ApprovalOk(t.tracking.rows, t.log, t.approvals[r]) {
      ApprovalsKeep(s, step, r);
    }
    forall x | x in t.queue ensures TaskOk(t.tracking.rows, t.log, x) { QueueKeeps(s, step, x); }
    forall w | w in t.workers ensures WorkerOk(t.tracking.rows, t.log, w, t.workers[w]) { WorkersKeep(s, step, w); }
  }

  lemma {:induction false} RunKeeps(s: State, steps: seq<Step>)
    requires Inv(s)
    ensures Inv(Run(s, steps))
    decreases |steps|
  {
    if steps != [] {
      StepKeeps(s, steps[0]);
      RunKeeps(Next(s, steps[0]), steps[1..]);
    }
  }

  // ---------- runs in pieces ----------

  lemma {:induction false} RunAppend(s: State, a: seq<Step>, b: seq<Step>)
    ensures Run(s, a + b) == Run(Run(s, a), b)
    decreases |a|
  {
    if a == [] {
      assert a + b == b;
    } else {
      assert (a + b)[1..] == a[1..] + b;
      RunAppend(Next(s, a[0]), a[1..], b);
    }
  }

  lemma RunOne(s: State, step: Step)
    ensures Run(s, [step]) == Next(s, step)
  {
    assert [step][1..] == [];
  }

  lemma RunThree(s: State, steps: seq<Step>)
    requires |steps| == 3
    ensures Run(s, steps) == Next(Next(Next(s, steps[0]), steps[1]), steps[2])
  {
    assert steps == [steps[0]] + ([steps[1]] + [steps[2]]);
    RunAppend(s, [steps[0]], [steps[1]] + [steps[2]]);
    RunOne(s, steps[0]);
    RunAppend(Next(s, steps[0]), [steps[1]], [steps[2]]);
    RunOne(Next(s, steps[0]), steps[1]);
    RunOne(Next(Next(s, steps[0]), steps[1]), steps[2]);
  }
}
