/** What every run of the outreach protocol guarantees, read off its log. */
module OutreachRuns {
  import opened Options
  import opened Outreach
  import Compliance
  import Tracking

  lemma {:induction false} EventAt(log: seq<Event>, i: nat)
    requires LogOk(log) && i < |log|
    ensures LogOk(log[..i]) && Owed(log[..i], log[i])
  {
    var shorter := log[..|log| - 1];
    if i < |shorter| {
      EventAt(shorter, i);
      assert shorter[..i] == log[..i];
    }
  }

  /** An approval at `a`: its handler had found the campaign unsent and in the
      manager's own portfolio, at an earlier position. */
  ghost predicate ApprovedByOwner(log: seq<Event>, a: nat, c: nat) {
    && a < |log| && log[a].Approved? && log[a].c == c
    && (var k := log[a].checked;
        && k < a && log[k] == Checked(c, log[a].rm) && Marked(c) !in log[..k]
        && OriginAt(log[..k], c).Some? && OriginAt(log[..k], c).value.rm == log[a].rm)
  }

  /** A dispatch at `l` loaded the content as it then stood, after an approval. */
  ghost predicate LoadedApproved(log: seq<Event>, l: nat, w: nat, c: nat, content: Content) {
    && l < |log| && log[l].Loaded? && log[l].w == w && log[l].c == c && log[l].content == content
    && ContentAt(log[..l], c) == Some(content)
    && log[l].approval < l && ApprovedByOwner(log, log[l].approval, c)
  }

  /** Behind the send at `i`: in this order an owner's approval, a load of the
      current content and a passed DND check, the last two by the same dispatch,
      and the message goes to the campaign's own contact. */
  ghost predicate Justified(log: seq<Event>, i: nat)
    requires i < |log| && log[i].Sent?
  {
    var e := log[i];
    && e.loaded < e.dnd < i
    && LoadedApproved(log, e.loaded, e.w, e.c, e.content)
    && log[e.dnd] == DndPassed(e.w, e.slot) && ListingOf(e.slot) !in DndAt(log[..e.dnd])
    && NoReload(log[..i], e.w, e.loaded)
    && OriginAt(log[..i], e.c).Some? && OriginAt(log[..i], e.c).value.slot == e.slot
  }

  lemma ApprovalIsByOwner(log: seq<Event>, a: nat, c: nat)
    requires LogOk(log) && IsApproval(log, a, c)
    ensures ApprovedByOwner(log, a, c)
  {
    EventAt(log, a);
    EventAt(log, log[a].checked);
    assert log[..a][log[a].checked] == log[log[a].checked];
  }

  lemma LoadIsApproved(log: seq<Event>, l: nat)
    requires LogOk(log) && l < |log| && log[l].Loaded?
    ensures LoadedApproved(log, l, log[l].w, log[l].c, log[l].content)
  {
    EventAt(log, l);
    assert log[..l][log[l].approval] == log[log[l].approval];
    ApprovalIsByOwner(log, log[l].approval, log[l].c);
  }

  lemma SentIsJustified(log: seq<Event>, i: nat)
    requires LogOk(log) && i < |log| && log[i].Sent?
    ensures Justified(log, i)
  {
    var e := log[i];
    EventAt(log, i);
    assert log[..i][e.loaded] == log[e.loaded] && log[..i][e.dnd] == log[e.dnd];
    LoadIsApproved(log, e.loaded);
    EventAt(log, e.dnd);
  }

  /** In every run each provider send is justified. */
  lemma EverySendIsJustified(steps: seq<Step>)
    ensures forall i | 0 <= i < |Run(START, steps).log| && Run(START, steps).log[i].Sent? ::
              Justified(Run(START, steps).log, i)
  {
    StartHolds();
    RunKeeps(START, steps);
    var log := Run(START, steps).log;
    forall i | 0 <= i < |log| && log[i].Sent? ensures Justified(log, i) { SentIsJustified(log, i); }
  }

  lemma StartHolds()
    ensures Inv(START)
  {
  }

  // ---------- sends read off the single events ----------

  /** After these events the listing stands: it was put on the list and not taken
      off again. */
  ghost predicate Stands(log: seq<Event>, l: Listing) {
    exists k :: 0 <= k < |log| && log[k] == DndSet(l, true) && DndSet(l, false) !in log[k..]
  }

  lemma {:induction false} DndAtIs(log: seq<Event>, l: Listing)
    ensures l in DndAt(log) <==> Stands(log, l)
  {
    hide Stands;
    if log == [] {
      NothingStands(l);
    } else {
      var before, e := log[..|log| - 1], log[|log| - 1];
      DndAtIs(before, l);
      StandsNext(before, e, l);
      assert log == before + [e];
    }
  }

  lemma NothingStands(l: Listing)
    ensures !Stands([], l)
  {
  }

  lemma StandsNext(before: seq<Event>, e: Event, l: Listing)
    ensures Stands(before + [e], l) <==> e == DndSet(l, true) || (Stands(before, l) && e != DndSet(l, false))
  {
    var log := before + [e];
    if e == DndSet(l, true) {
      assert log[|before|..] == [e] && log[|before|] == e;
    }
    if Stands(before, l) && e != DndSet(l, false) {
      var k :| 0 <= k < |before| && before[k] == DndSet(l, true) && DndSet(l, false) !in before[k..];
      assert log[k..] == before[k..] + [e] && log[k] == before[k];
    }
    if Stands(log, l) && e != DndSet(l, true) {
      var k :| 0 <= k < |log| && log[k] == DndSet(l, true) && DndSet(l, false) !in log[k..];
      assert k < |before| && log[k..] == before[k..] + [e];
      assert before[k] == log[k] && e in log[k..];
    }
  }

  /** No message goes to an opted-out contact: in every run, when the dispatch
      behind a send passed its check, an email's address did not stand on the list
      of addresses, nor any other message's number on the list of numbers. */
  lemma OptedOutGetsNothing(steps: seq<Step>, i: nat)
    requires i < |Run(START, steps).log| && Run(START, steps).log[i].Sent?
    ensures var log := Run(START, steps).log;
            && log[i].loaded < log[i].dnd < i
            && (log[i].slot.channel.Email? ==> !Stands(log[..log[i].dnd], EmailListing(log[i].slot.identifier)))
            && (!log[i].slot.channel.Email? ==> !Stands(log[..log[i].dnd], PhoneListing(log[i].slot.identifier)))
  {
    hide Run, Stands, LogOk;
    EverySendIsJustified(steps);
    var log := Run(START, steps).log;
    assert Justified(log, i);
    var id, before := log[i].slot.identifier, log[..log[i].dnd];
    DndAtIs(before, EmailListing(id));
    DndAtIs(before, PhoneListing(id));
  }

  /** The event gives the campaign a body: its creation, or an approval with an edit. */
  predicate SetsBody(e: Event, c: nat) {
    (e.Created? && e.c == c) || (e.Approved? && e.c == c && e.change.edit != "")
  }

  predicate SetsSession(e: Event, c: nat) {
    (e.Created? && e.c == c) || (e.Approved? && e.c == c && e.change.session.Some?)
  }

  ghost predicate BodyIs(log: seq<Event>, c: nat, body: string) {
    exists k :: 0 <= k < |log| && SetsBody(log[k], c) && (forall j | k < j < |log| :: !SetsBody(log[j], c))
                && body == if log[k].Created? then log[k].content.body else log[k].change.edit
  }

  ghost predicate SessionIs(log: seq<Event>, c: nat, session: Option<string>) {
    exists k :: 0 <= k < |log| && SetsSession(log[k], c) && (forall j | k < j < |log| :: !SetsSession(log[j], c))
                && session == if log[k].Created? then log[k].content.session else log[k].change.session
  }

  lemma BodyNext(before: seq<Event>, e: Event, c: nat, body: string)
    ensures SetsBody(e, c) && body == (if e.Created? then e.content.body else e.change.edit) ==>
              BodyIs(before + [e], c, body)
    ensures !SetsBody(e, c) && BodyIs(before, c, body) ==> BodyIs(before + [e], c, body)
  {
    var log := before + [e];
    assert log[|before|] == e;
    if !SetsBody(e, c) && BodyIs(before, c, body) {
      var k :| 0 <= k < |before| && SetsBody(before[k], c) && (forall j | k < j < |before| :: !SetsBody(before[j], c))
               && body == if before[k].Created? then before[k].content.body else before[k].change.edit;
      assert log[k] == before[k];
    }
  }

  lemma SessionNext(before: seq<Event>, e: Event, c: nat, session: Option<string>)
    ensures SetsSession(e, c) && session == (if e.Created? then e.content.session else e.change.session) ==>
              SessionIs(before + [e], c, session)
    ensures !SetsSession(e, c) && SessionIs(before, c, session) ==> SessionIs(before + [e], c, session)
  {
    var log := before + [e];
    assert log[|before|] == e;
    if !SetsSession(e, c) && SessionIs(before, c, session) {
      var k :| 0 <= k < |before| && SetsSession(before[k], c)
               && (forall j | k < j < |before| :: !SetsSession(before[j], c))
               && session == if before[k].Created? then before[k].content.session else before[k].change.session;
      assert log[k] == before[k];
    }
  }

  lemma {:induction false} ContentIs(log: seq<Event>, c: nat)
    requires ContentAt(log, c).Some?
    ensures BodyIs(log, c, ContentAt(log, c).value.body) && SessionIs(log, c, ContentAt(log, c).value.session)
  {
    hide BodyIs, SessionIs;
    var before, e, now := log[..|log| - 1], log[|log| - 1], ContentAt(log, c).value;
    assert log == before + [e];
    BodyNext(before, e, c, now.body);
    SessionNext(before, e, c, now.session);
    if !(e.Created? && e.c == c) {
      ContentIs(before, c);
    }
  }

  /** What is sent: in every run, the body the manager approved last before the
      dispatch loaded the campaign, or the generated one if no approval changed it,
      in the session chosen last. */
  lemma ApprovedBodyIsSent(steps: seq<Step>, i: nat)
    requires i < |Run(START, steps).log| && Run(START, steps).log[i].Sent?
    ensures var log := Run(START, steps).log;
            && log[i].loaded < i
            && BodyIs(log[..log[i].loaded], log[i].c, log[i].content.body)
            && SessionIs(log[..log[i].loaded], log[i].c, log[i].content.session)
  {
    hide Run, LogOk, BodyIs, SessionIs;
    EverySendIsJustified(steps);
    var log := Run(START, steps).log;
    assert Justified(log, i);
    ContentIs(log[..log[i].loaded], log[i].c);
  }

  /** A manager's approval request passes its check exactly when the campaign is
      in their portfolio and has not been marked sent. */
  lemma ApprovalCheckExactly(steps: seq<Step>, req: nat, rm: nat, c: nat)
    requires req !in Run(START, steps).approvals
    ensures var s := Run(START, steps);
            CheckAccepts(s, req, rm, c)
            <==> OriginAt(s.log, c).Some? && OriginAt(s.log, c).value.rm == rm && Marked(c) !in s.log
  {
    StartHolds();
    RunKeeps(START, steps);
    assert RowMatch(Run(START, steps).tracking.rows, Run(START, steps).log, c);
  }

  /** A mark of the campaign after position `from` and before `to`. */
  ghost predicate MarkedBetween(log: seq<Event>, c: nat, from: int, to: nat) {
    exists m :: 0 <= m < |log| && from < m < to && log[m] == Marked(c)
  }

  /** An approval follows a mark of its campaign exactly when the mark fell
      between the approval's own check and its commit. */
  lemma ApprovalFollowsMarkExactly(steps: seq<Step>, a: nat)
    requires a < |Run(START, steps).log| && Run(START, steps).log[a].Approved?
    ensures var log := Run(START, steps).log;
            MarkedBetween(log, log[a].c, -1, a) <==> MarkedBetween(log, log[a].c, log[a].checked, a)
  {
    StartHolds();
    RunKeeps(START, steps);
    var log := Run(START, steps).log;
    var c, k := log[a].c, log[a].checked;
    ApprovalIsByOwner(log, a, c);
    if MarkedBetween(log, c, -1, a) {
      var m :| 0 <= m < |log| && m < a && log[m] == Marked(c);
      assert log[k] == Checked(c, log[a].rm);
      NotBefore(log, k, m, Marked(c));
    }
  }

  lemma NotBefore(log: seq<Event>, k: nat, m: nat, e: Event)
    requires k <= |log| && m < |log| && log[m] == e && e !in log[..k]
    ensures m >= k
  {
    assert forall i | 0 <= i < k :: log[i] == log[..k][i];
  }

  /** No approval of the campaign is committed after it was marked sent. */
  ghost predicate ApprovalsBeforeMarks(log: seq<Event>, c: nat) {
    forall a | 0 <= a < |log| && log[a].Approved? && log[a].c == c :: !MarkedBetween(log, c, -1, a)
  }

  /** No mark of the campaign falls between the check and the commit of an approval. */
  ghost predicate ChecksUndisturbed(log: seq<Event>, c: nat) {
    forall a | 0 <= a < |log| && log[a].Approved? && log[a].c == c :: !MarkedBetween(log, c, log[a].checked, a)
  }

  /** A run accepts no approval of a sent campaign exactly when no mark of it
      falls between an approval's check and its commit. */
  lemma NoLateApprovalExactly(steps: seq<Step>, c: nat)
    ensures ApprovalsBeforeMarks(Run(START, steps).log, c) <==> ChecksUndisturbed(Run(START, steps).log, c)
  {
    var log := Run(START, steps).log;
    forall a | 0 <= a < |log| && log[a].Approved?
      ensures MarkedBetween(log, log[a].c, -1, a) <==> MarkedBetween(log, log[a].c, log[a].checked, a)
    {
      ApprovalFollowsMarkExactly(steps, a);
    }
  }

  // ---------- the components are runs of their own machines ----------

  function TrackSteps(s: State, steps: seq<Step>): seq<Tracking.Step>
    decreases |steps|
  {
    if steps == [] then [] else [TrackStep(s, steps[0])] + TrackSteps(Next(s, steps[0]), steps[1..])
  }

  function CountSteps(s: State, steps: seq<Step>): seq<Compliance.Step>
    decreases |steps|
  {
    if steps == [] then [] else [CountStep(s, steps[0])] + CountSteps(Next(s, steps[0]), steps[1..])
  }

  /** At most `workers` dispatches at once. */
  ghost predicate WorkersBelow(steps: seq<Step>, workers: nat) {
    forall step | step in steps :: step.RateCheck? ==> step.w < workers
  }

  lemma {:induction false} Components(s: State, steps: seq<Step>, workers: nat)
    ensures Run(s, steps).tracking == Tracking.Run(s.tracking, TrackSteps(s, steps))
    ensures Run(s, steps).compliance == Compliance.Run(s.compliance, CountSteps(s, steps))
    ensures WorkersBelow(steps, workers) ==> Compliance.AllWithin(CountSteps(s, steps), workers)
    decreases |steps|
  {
    if steps != [] {
      Components(Next(s, steps[0]), steps[1..], workers);
      assert ([TrackStep(s, steps[0])] + TrackSteps(Next(s, steps[0]), steps[1..]))[1..]
          == TrackSteps(Next(s, steps[0]), steps[1..]);
      assert ([CountStep(s, steps[0])] + CountSteps(Next(s, steps[0]), steps[1..]))[1..]
          == CountSteps(Next(s, steps[0]), steps[1..]);
    }
  }

  /** With `workers` dispatch workers no daily counter exceeds the limit by more
      than the other workers, whatever else happens in the protocol. */
  lemma ProtocolCounterBound(steps: seq<Step>, workers: nat, key: Compliance.Key)
    requires WorkersBelow(steps, workers)
    ensures Run(START, steps).compliance.counted[key] < Compliance.Limit(key.slot.channel) + workers
  {
    Components(START, steps, workers);
    Compliance.CounterBound(CountSteps(START, steps), workers, key);
  }

  /** The digest of every run of the protocol is a funnel. */
  lemma ProtocolDigest(steps: seq<Step>, rm: nat, live: set<nat>, from: nat, to: nat)
    ensures var d := Tracking.Digest(Run(START, steps).tracking, rm, live, from, to);
            d.nConverted <= d.nOpened <= d.nDelivered <= d.nSent
  {
    Components(START, steps, 0);
    Tracking.DigestIsFunnel(TrackSteps(START, steps), rm, live, from, to);
  }

  /** A campaign's derived status never moves backwards as a run goes on. */
  lemma ProtocolStatusForward(steps: seq<Step>, more: seq<Step>, c: nat)
    requires c in Run(START, steps).tracking.rows
    ensures c in Run(Run(START, steps), more).tracking.rows
    ensures Tracking.Stage(Run(START, steps).tracking, c) <= Tracking.Stage(Run(Run(START, steps), more).tracking, c)
  {
    var s := Run(START, steps);
    Components(START, steps, 0);
    Tracking.FunnelHolds(Tracking.START, TrackSteps(START, steps));
    Components(s, more, 0);
    Tracking.FunnelHolds(s.tracking, TrackSteps(s, more));
  }

  // ---------- sends are always counted in flight ----------

  predicate InFlightPhase(p: Phase) { p.RateClear? || p.Accepted? || p.Committed? }

  ghost predicate Counted(s: State, w: nat) {
    if w in s.workers && InFlightPhase(s.workers[w].phase)
    then w in s.compliance.inflight && s.compliance.inflight[w] == s.workers[w].slot
    else w !in s.compliance.inflight
  }

  lemma CountedKeeps(s: State, step: Step, w: nat)
    requires Counted(s, w)
    ensures Counted(Next(s, step), w)
  {
    hide Next, Compliance.Read, Compliance.Incremented;
    NextCounts(s, step);
  }

  lemma NextCounts(s: State, step: Step)
    ensures Next(s, step).workers == Workers(s, step)
    ensures Next(s, step).compliance == Compliance.Next(s.compliance, CountStep(s, step))
  {
  }

  lemma {:induction false} CountedThroughout(s: State, steps: seq<Step>, w: nat)
    requires Counted(s, w)
    ensures Counted(Run(s, steps), w)
    decreases |steps|
  {
    if steps != [] {
      CountedKeeps(s, steps[0], w);
      CountedThroughout(Next(s, steps[0]), steps[1..], w);
    }
  }

  /** From its rate check to its increment, and only then, a dispatch is among
      those the counter's bound speaks of; so every send is. */
  lemma InFlightExactly(steps: seq<Step>, w: nat)
    ensures Counted(Run(START, steps), w)
  {
    CountedThroughout(START, steps, w);
  }
}
