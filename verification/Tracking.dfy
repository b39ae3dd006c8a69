/** Campaign rows and delivery receipts: the sent, delivered, opened, converted
    funnel, with receipt handlers that read a row and write it back later. */
module Tracking {
  import opened Options
  import opened OrderedDict
  import Compliance

  type Slot = Compliance.Slot

  /** A campaign's message and the session whose vault its dispatch will use. */
  datatype Content = Content(body: string, session: Option<string>)

  /** What an approval may change: an empty edit or no session leaves it as it is. */
  datatype Change = Change(edit: string, session: Option<string>)

  function Changed(c: Content, change: Change): Content {
    Content(if change.edit != "" then change.edit else c.body,
            if change.session.Some? then change.session else c.session)
  }

  datatype Row = Row(rm: nat, slot: Slot, content: Content,
                     sentAt: Option<nat>, deliveredAt: Option<nat>, openedAt: Option<nat>, convertedAt: Option<nat>,
                     providerId: Option<string>)

  datatype Kind = Delivered | Opened | Converted

  /** Meaning of a lower-cased provider status. */
  function Classify(status: string): Option<Kind> {
    if status in ["delivered", "delivered_at"] then Some(Delivered)
    else if status in ["read", "opened", "open", "click", "opened_at"] then Some(Opened)
    else if status in ["converted", "converted_at"] then Some(Converted)
    else None
  }

  /** Columns a receipt writes, given which earlier stages its handler saw set. */
  function WithReceipt(row: Row, kind: Kind, sawDelivered: bool, sawOpened: bool, now: nat): Row {
    match kind
    case Delivered => row.(deliveredAt := Some(now))
    case Opened =>
      row.(deliveredAt := if sawDelivered then row.deliveredAt else Some(now), openedAt := Some(now))
    case Converted =>
      row.(deliveredAt := if sawDelivered then row.deliveredAt else Some(now),
           openedAt := if sawOpened then row.openedAt else Some(now),
           convertedAt := Some(now))
  }

  class Campaign {
    const rm: nat
    const slot: Slot
    var body: string
    var session: Option<string>
    var sentAt: Option<nat>
    var deliveredAt: Option<nat>
    var openedAt: Option<nat>
    var convertedAt: Option<nat>
    var providerId: Option<string>

    function Value(): Row reads this {
      Row(rm, slot, Content(body, session), sentAt, deliveredAt, openedAt, convertedAt, providerId)
    }

    constructor (rm: nat, slot: Slot, body: string, session: Option<string>)
      ensures Value() == Draft(rm, slot, Content(body, session))
    {
      this.rm, this.slot, this.body, this.session := rm, slot, body, session;
      sentAt, deliveredAt, openedAt, convertedAt, providerId := None, None, None, None, None;
    }

    /** The body of the webhook handler once the campaign has been found. */
    method ProcessReceipt(status: string, now: nat) returns (updated: bool)
      modifies this
      ensures updated <==> Classify(status).Some?
      ensures Value() == if updated
                         then WithReceipt(old(Value()), Classify(status).value,
                                          old(deliveredAt).Some?, old(openedAt).Some?, now)
                         else old(Value())
      ensures old(RowOk(Value())) && old(sentAt).Some? ==> RowOk(Value())
      ensures var delivers := status == "delivered" || status == "delivered_at";
              var opens := status in {"read", "opened", "open", "click", "opened_at"};
              var converts := status == "converted" || status == "converted_at";
              && (updated <==> delivers || opens || converts)
              && convertedAt == (if converts then Some(now) else old(convertedAt))
              && openedAt == (if opens || (converts && old(openedAt).None?) then Some(now) else old(openedAt))
              && deliveredAt == (if delivers || ((opens || converts) && old(deliveredAt).None?) then Some(now)
                                 else old(deliveredAt))
              && sentAt == old(sentAt) && providerId == old(providerId) && body == old(body) && session == old(session)
    {
      updated := false;
      if status in ["delivered", "delivered_at"] {
        deliveredAt := Some(now);
        updated := true;
      } else if status in ["read", "opened", "open", "click", "opened_at"] {
        if deliveredAt.None? {
          deliveredAt := Some(now);
        }
        openedAt := Some(now);
        updated := true;
      } else if status in ["converted", "converted_at"] {
        if deliveredAt.None? {
          deliveredAt := Some(now);
        }
        if openedAt.None? {
          openedAt := Some(now);
        }
        convertedAt := Some(now);
        updated := true;
      }
    }

    /** What an accepted approval writes. */
    method Approve(change: Change)
      modifies this`body, this`session
      ensures Value() == old(Value()).(content := Changed(old(Value()).content, change))
    {
      if change.edit != "" {
        body := change.edit;
      }
      if change.session.Some? {
        session := change.session;
      }
    }

    /** What the dispatch task writes after the provider accepted the message. */
    method MarkSent(pid: string, now: nat)
      modifies this`sentAt, this`providerId
      ensures Value() == old(Value()).(sentAt := Some(now), providerId := Some(pid))
      ensures old(RowOk(Value())) ==> RowOk(Value())
    {
      sentAt := Some(now);
      providerId := Some(pid);
    }
  }

  function Draft(rm: nat, slot: Slot, content: Content): Row {
    Row(rm, slot, content, None, None, None, None, None)
  }

  // ---------- handlers interleaved ----------

  /** A receipt handler between its read and its commit. */
  datatype Pending = Pending(c: nat, kind: Kind, sawDelivered: bool, sawOpened: bool)

  datatype State = State(rows: map<nat, Row>, pending: map<nat, Pending>)

  datatype Step =
    | Create(c: nat, rm: nat, slot: Slot, content: Content)
    | Edit(c: nat, change: Change)
    | Mark(c: nat, pid: string, now: nat)
    | ReceiptRead(r: nat, c: nat, pid: string, kind: Kind)
    | ReceiptCommit(r: nat, now: nat)
    | Skip

  const START := State(map[], map[])

  /** `c` is the only campaign carrying the provider's message id. */
  predicate OnlyMatch(rows: map<nat, Row>, c: nat, pid: string) {
    && c in rows && rows[c].providerId == Some(pid)
    && forall d | d in rows && rows[d].providerId == Some(pid) :: d == c
  }

  function Next(s: State, step: Step): State {
    match step
    case Create(c, rm, slot, content) =>
      if c in s.rows then s else s.(rows := s.rows[c := Draft(rm, slot, content)])
    case Edit(c, change) =>
      if c !in s.rows then s
      else s.(rows := s.rows[c := s.rows[c].(content := Changed(s.rows[c].content, change))])
    case Mark(c, pid, now) =>
      if c !in s.rows then s
      else s.(rows := s.rows[c := s.rows[c].(sentAt := Some(now), providerId := Some(pid))])
    case ReceiptRead(r, c, pid, kind) =>
      if r in s.pending || !OnlyMatch(s.rows, c, pid) then s
      else s.(pending := s.pending[r := Pending(c, kind, s.rows[c].deliveredAt.Some?, s.rows[c].openedAt.Some?)])
    case ReceiptCommit(r, now) =>
      if r !in s.pending || s.pending[r].c !in s.rows then s
      else
        var p := s.pending[r];
        State(s.rows[p.c := WithReceipt(s.rows[p.c], p.kind, p.sawDelivered, p.sawOpened, now)], s.pending - {r})
    case Skip => s
  }

  function Run(s: State, steps: seq<Step>): State
    decreases |steps|
  {
    if steps == [] then s else Run(Next(s, steps[0]), steps[1..])
  }

  /** Each stage has been reached only after all earlier ones. */
  ghost predicate RowOk(row: Row) {
    && (row.convertedAt.Some? ==> row.openedAt.Some?)
    && (row.openedAt.Some? ==> row.deliveredAt.Some?)
    && (row.deliveredAt.Some? ==> row.sentAt.Some?)
    && (row.providerId.Some? ==> row.sentAt.Some?)
  }

  ghost predicate Inv(s: State) {
    && (forall c | c in s.rows :: RowOk(s.rows[c]))
    && (forall r | r in s.pending ::
          var p := s.pending[r];
          && p.c in s.rows && s.rows[p.c].sentAt.Some?
          && (p.sawDelivered ==> s.rows[p.c].deliveredAt.Some?)
          && (p.sawOpened ==> s.rows[p.c].openedAt.Some?))
  }

  /** What a receipt leaves on a row that changed since its handler read it: its own
      column is set anew, an earlier one exactly if the handler saw it unset, and
      nothing else changes. */
  lemma ReceiptSets(row: Row, kind: Kind, sawDelivered: bool, sawOpened: bool, now: nat)
    ensures var after := WithReceipt(row, kind, sawDelivered, sawOpened, now);
            && after.deliveredAt == (if kind.Delivered? || !sawDelivered then Some(now) else row.deliveredAt)
            && after.openedAt == (if kind.Opened? || (kind.Converted? && !sawOpened) then Some(now) else row.openedAt)
            && after.convertedAt == (if kind.Converted? then Some(now) else row.convertedAt)
            && after.(deliveredAt := row.deliveredAt, openedAt := row.openedAt, convertedAt := row.convertedAt) == row
  {
  }

  /** A receipt reaches the campaign that carries its message id, and no other; an
      id that two campaigns carry, or none, changes nothing. */
  lemma ReceiptReachesOnlyMatch(s: State, r: nat, c: nat, pid: string, kind: Kind, now: nat)
    requires r !in s.pending
    ensures var t := Next(Next(s, ReceiptRead(r, c, pid, kind)), ReceiptCommit(r, now));
            if forall d :: d in s.rows && s.rows[d].providerId == Some(pid) <==> d == c
            then && c in s.rows && t.pending == s.pending
                 && t.rows == s.rows[c := WithReceipt(s.rows[c], kind, s.rows[c].deliveredAt.Some?,
                                                      s.rows[c].openedAt.Some?, now)]
            else t == s
  {
    if forall d :: d in s.rows && s.rows[d].providerId == Some(pid) <==> d == c {
      assert c in s.rows && s.rows[c].providerId == Some(pid);
    }
  }

  // ---------- derived status ----------

  datatype Status = PendingStatus | SentStatus | DeliveredStatus | OpenedStatus | ConvertedStatus

  function DerivedStatus(row: Row): Status {
    if row.convertedAt.Some? then ConvertedStatus
    else if row.openedAt.Some? then OpenedStatus
    else if row.deliveredAt.Some? then DeliveredStatus
    else if row.sentAt.Some? then SentStatus
    else PendingStatus
  }

  function Rank(st: Status): nat {
    match st
    case PendingStatus => 0
    case SentStatus => 1
    case DeliveredStatus => 2
    case OpenedStatus => 3
    case ConvertedStatus => 4
  }

  function Stage(s: State, c: nat): nat
    requires c in s.rows
  {
    Rank(DerivedStatus(s.rows[c]))
  }

  /** No field that is set is cleared. */
  ghost predicate Advances(a: Row, b: Row) {
    && (a.sentAt.Some? ==> b.sentAt.Some?) && (a.deliveredAt.Some? ==> b.deliveredAt.Some?)
    && (a.openedAt.Some? ==> b.openedAt.Some?) && (a.convertedAt.Some? ==> b.convertedAt.Some?)
  }

  lemma RowAdvances(s: State, step: Step, c: nat)
    requires Inv(s) && c in s.rows
    ensures c in Next(s, step).rows && RowOk(Next(s, step).rows[c]) && Advances(s.rows[c], Next(s, step).rows[c])
  {
  }

  lemma PendingStays(s: State, step: Step, r: nat)
    requires Inv(s) && r in Next(s, step).pending
    ensures var p := Next(s, step).pending[r];
            && p.c in s.rows && s.rows[p.c].sentAt.Some?
            && (p.sawDelivered ==> s.rows[p.c].deliveredAt.Some?)
            && (p.sawOpened ==> s.rows[p.c].openedAt.Some?)
  {
    hide WithReceipt;
  }

  lemma CreatedIsDraft(s: State, step: Step, c: nat)
    requires c !in s.rows && c in Next(s, step).rows
    ensures RowOk(Next(s, step).rows[c])
  {
    hide WithReceipt;
  }

  lemma StageAdvances(a: Row, b: Row)
    requires RowOk(a) && RowOk(b) && Advances(a, b)
    ensures Rank(DerivedStatus(a)) <= Rank(DerivedStatus(b))
  {
  }

  /** One step keeps the funnel and moves no campaign's status backwards. */
  lemma StepAdvances(s: State, step: Step)
    requires Inv(s)
    ensures Inv(Next(s, step))
    ensures forall c | c in s.rows :: c in Next(s, step).rows && Stage(s, c) <= Stage(Next(s, step), c)
  {
    hide Next, RowOk;
    var t := Next(s, step);
    forall c | c in t.rows ensures RowOk(t.rows[c]) {
      if c in s.rows { RowAdvances(s, step, c); } else { CreatedIsDraft(s, step, c); }
    }
    forall c | c in s.rows ensures c in t.rows && Stage(s, c) <= Stage(t, c) && Advances(s.rows[c], t.rows[c]) {
      RowAdvances(s, step, c);
      StageAdvances(s.rows[c], t.rows[c]);
    }
    forall r | r in t.pending
      ensures var p := t.pending[r];
              && p.c in t.rows && t.rows[p.c].sentAt.Some?
              && (p.sawDelivered ==> t.rows[p.c].deliveredAt.Some?)
              && (p.sawOpened ==> t.rows[p.c].openedAt.Some?)
    {
      PendingStays(s, step, r);
    }
  }

  /** Whatever the interleaving: converted implies opened implies delivered
      implies sent on every row, and the derived status only moves forward. */
  lemma {:induction false} FunnelHolds(s: State, steps: seq<Step>)
    requires Inv(s)
    ensures Inv(Run(s, steps))
    ensures forall c | c in s.rows :: c in Run(s, steps).rows && Stage(s, c) <= Stage(Run(s, steps), c)
    decreases |steps|
  {
    if steps != [] {
      StepAdvances(s, steps[0]);
      FunnelHolds(Next(s, steps[0]), steps[1..]);
    }
  }

  // ---------- morning digest counts ----------

  /** Campaigns of the manager's live customers sent in the interval. */
  function SentIn(s: State, rm: nat, live: set<nat>, from: nat, to: nat): set<nat> {
    set c | c in s.rows && c in live && s.rows[c].rm == rm && s.rows[c].sentAt.Some?
            && from <= s.rows[c].sentAt.value <= to
  }

  datatype Stats = Stats(nSent: nat, nDelivered: nat, nOpened: nat, nConverted: nat)

  function DeliveredOf(s: State, sent: set<nat>): set<nat> {
    set c | c in sent && c in s.rows && s.rows[c].deliveredAt.Some?
  }

  function OpenedOf(s: State, sent: set<nat>): set<nat> {
    set c | c in sent && c in s.rows && s.rows[c].openedAt.Some?
  }

  function ConvertedOf(s: State, sent: set<nat>): set<nat> {
    set c | c in sent && c in s.rows && s.rows[c].convertedAt.Some?
  }

  /** `count(column)` counts the rows where the column is set. */
  function Digest(s: State, rm: nat, live: set<nat>, from: nat, to: nat): Stats {
    var sent := SentIn(s, rm, live, from, to);
    Stats(|sent|, |DeliveredOf(s, sent)|, |OpenedOf(s, sent)|, |ConvertedOf(s, sent)|)
  }

  function AtLeast(s: State, rm: nat, live: set<nat>, from: nat, to: nat, stage: nat): set<nat> {
    set c | c in SentIn(s, rm, live, from, to) && stage <= Stage(s, c)
  }

  /** In every run the digest's columns count the campaigns whose derived status
      reached that stage, so converted <= opened <= delivered <= sent. */
  lemma DigestIsFunnel(steps: seq<Step>, rm: nat, live: set<nat>, from: nat, to: nat)
    ensures var s := Run(START, steps);
            var d := Digest(s, rm, live, from, to);
            && d == Stats(|AtLeast(s, rm, live, from, to, 1)|, |AtLeast(s, rm, live, from, to, 2)|,
                          |AtLeast(s, rm, live, from, to, 3)|, |AtLeast(s, rm, live, from, to, 4)|)
            && d.nConverted <= d.nOpened <= d.nDelivered <= d.nSent
            && d.nSent == |set c | c in s.rows && c in live && s.rows[c].rm == rm
                                   && s.rows[c].sentAt.Some? && from <= s.rows[c].sentAt.value <= to|
  {
    FunnelHolds(START, steps);
    var s := Run(START, steps);
    var sent := SentIn(s, rm, live, from, to);
    assert sent == set c | c in s.rows && c in live && s.rows[c].rm == rm
                           && s.rows[c].sentAt.Some? && from <= s.rows[c].sentAt.value <= to;
    var delivered, read, converted := DeliveredOf(s, sent), OpenedOf(s, sent), ConvertedOf(s, sent);
    assert AtLeast(s, rm, live, from, to, 1) == sent;
    assert AtLeast(s, rm, live, from, to, 2) == delivered;
    assert AtLeast(s, rm, live, from, to, 3) == read;
    assert AtLeast(s, rm, live, from, to, 4) == converted;
    SubsetCount(converted, read);
    SubsetCount(read, delivered);
    SubsetCount(delivered, sent);
  }
}
