/** Opportunities: scoring upserts them, managers dismiss them, a five-minute
    cache serves them, and the morning digest lists the best. What the database
    answers to an ordered query is a parameter, constrained by the query. */
module OpportunityStore {
  import opened Options
  import opened Rounding

  datatype Status = New | RmViewed | OutreachSent | Converted | Dismissed

  /** What scoring writes; `churnRisk` is the one risk flag. */
  datatype Figures = Figures(score: real, conversion: real, revenue: real, churnRisk: real)

  function FiguresOf(score: real, conversion: real, revenue: real, churn: real): Figures {
    Figures(score, conversion, revenue, Rounded(churn, 1000))
  }

  datatype Opportunity = Opportunity(customer: nat, product: string, figures: Figures,
                                     explanation: Option<string>, status: Status, deleted: bool)

  type Rows = map<nat, Opportunity>

  const PRODUCTS: set<string> := {
    "personal_loan", "home_loan", "education_loan", "working_capital_loan", "loan_against_securities", "gold_loan",
    "wealth_advisory", "mutual_fund", "fixed_deposit", "forex_card", "current_account", "health_insurance",
    "child_education_plan", "premium_credit_card", "insurance", "business_credit_card"
  }

  /** A product the bank does not know is offered as a personal loan. */
  function ProductOf(name: string): string { if name in PRODUCTS then name else "personal_loan" }

  function Scored(customer: nat, product: string, figures: Figures): Opportunity {
    Opportunity(customer, ProductOf(product), figures, None, New, false)
  }

  /** One line of an opportunity list. */
  datatype Entry = Entry(id: nat, opportunity: Opportunity)

  predicate IsNew(rows: Rows, id: nat, customer: nat) {
    id in rows && rows[id].customer == customer && rows[id].status.New?
  }

  predicate HasNew(rows: Rows, customer: nat) { exists id | id in rows :: IsNew(rows, id, customer) }

  /** The row a dismissal finds. */
  predicate Finds(rows: Rows, customer: nat, id: nat) {
    id in rows && rows[id].customer == customer && !rows[id].deleted
  }

  predicate CanDismiss(rows: Rows, customer: nat, id: nat) {
    Finds(rows, customer, id) && !rows[id].status.Dismissed?
  }

  predicate Shown(o: Opportunity, customer: nat, includeDismissed: bool) {
    o.customer == customer && !o.deleted && (includeDismissed || !o.status.Dismissed?)
  }

  ghost predicate BestFirst(list: seq<Entry>) {
    forall i, j | 0 <= i < j < |list| ::
      list[i].id != list[j].id && list[i].opportunity.figures.score >= list[j].opportunity.figures.score
  }

  /** A correct answer to the list query, best score first. */
  ghost predicate Lists(rows: Rows, customer: nat, includeDismissed: bool, list: seq<Entry>) {
    && (forall e | e in list ::
          e.id in rows && rows[e.id] == e.opportunity && Shown(e.opportunity, customer, includeDismissed))
    && (forall id | id in rows && Shown(rows[id], customer, includeDismissed) :: Entry(id, rows[id]) in list)
    && BestFirst(list)
  }

  // ---------- handlers interleaved ----------

  /** A handler between its database access and its cache access. */
  datatype Handler = Filling(customer: nat, list: seq<Entry>) | Deleting(customer: nat)

  /** A scoring worker between its lookup of the customer's NEW row and its commit. */
  datatype Scoring = Scoring(customer: nat, found: Option<nat>)

  datatype State = State(rows: Rows, cache: map<nat, seq<Entry>>, handlers: map<nat, Handler>,
                         scorings: map<nat, Scoring>)

  datatype Step =
    | Lookup(w: nat, customer: nat, found: Option<nat>)
    | Write(w: nat, id: nat, product: string, figures: Figures)
    | Abandon(w: nat)
    | Query(h: nat, customer: nat, list: seq<Entry>)
    | Fill(h: nat)
    | DismissCommit(h: nat, customer: nat, id: nat)
    | DismissDelete(h: nat)
    | FillFails(h: nat)
    | DeleteFails(h: nat)
    | Expire(customer: nat)

  const START := State(map[], map[], map[], map[])

  /** What the lookup may answer: any NEW row of the customer, or none if there is none. */
  predicate Answers(rows: Rows, customer: nat, found: Option<nat>) {
    match found
    case Some(id) => IsNew(rows, id, customer)
    case None => !HasNew(rows, customer)
  }

  /** The commit: new figures for the row found, whatever became of it since, or a
      new row, for which the database has not used `id` before. */
  function Written(rows: Rows, scoring: Scoring, id: nat, product: string, figures: Figures): Rows {
    match scoring.found
    case Some(row) => if row in rows then rows[row := rows[row].(figures := figures)] else rows
    case None => if id in rows then rows else rows[id := Scored(scoring.customer, product, figures)]
  }

  /** Redis may fail at any access: a read then asks the database although a list
      is cached, and a fill or a deletion does nothing. */
  ghost function Next(s: State, step: Step): State {
    match step
    case Lookup(w, customer, found) =>
      if w in s.scorings || !Answers(s.rows, customer, found) then s
      else s.(scorings := s.scorings[w := Scoring(customer, found)])
    case Write(w, id, product, figures) =>
      if w !in s.scorings then s
      else s.(rows := Written(s.rows, s.scorings[w], id, product, figures), scorings := s.scorings - {w})
    case Abandon(w) => s.(scorings := s.scorings - {w})
    case Query(h, customer, list) =>
      if h in s.handlers || !Lists(s.rows, customer, false, list) then s
      else s.(handlers := s.handlers[h := Filling(customer, list)])
    case Fill(h) =>
      if h !in s.handlers || !s.handlers[h].Filling? then s
      else s.(cache := s.cache[s.handlers[h].customer := s.handlers[h].list], handlers := s.handlers - {h})
    case DismissCommit(h, customer, id) =>
      if h in s.handlers || !CanDismiss(s.rows, customer, id) then s
      else s.(rows := s.rows[id := s.rows[id].(status := Dismissed)], handlers := s.handlers[h := Deleting(customer)])
    case DismissDelete(h) =>
      if h !in s.handlers || !s.handlers[h].Deleting? then s
      else s.(cache := s.cache - {s.handlers[h].customer}, handlers := s.handlers - {h})
    case FillFails(h) =>
      if h !in s.handlers || !s.handlers[h].Filling? then s else s.(handlers := s.handlers - {h})
    case DeleteFails(h) =>
      if h !in s.handlers || !s.handlers[h].Deleting? then s else s.(handlers := s.handlers - {h})
    case Expire(customer) => s.(cache := s.cache - {customer})
  }

  ghost function Run(s: State, steps: seq<Step>): State
    decreases |steps|
  {
    if steps == [] then s else Run(Next(s, steps[0]), steps[1..])
  }

  /** At most `n` requests are being handled at once. */
  ghost predicate Within(steps: seq<Step>, n: nat) {
    forall step | step in steps && (step.Query? || step.DismissCommit?) :: step.h < n
  }

  /** At most `n` workers are scoring at once. */
  ghost predicate ScoringWithin(steps: seq<Step>, n: nat) {
    forall step | step in steps && step.Lookup? :: step.w < n
  }

  /** No deletion from the cache fails. */
  ghost predicate Deletes(steps: seq<Step>) { forall step | step in steps :: !step.DeleteFails? }

  ghost predicate OneNew(rows: Rows) {
    forall i, j | i in rows && j in rows && rows[i].status.New? && rows[j].status.New? ::
      rows[i].customer == rows[j].customer ==> i == j
  }

  /** The listed rows are the customer's, and not dismissed. */
  ghost predicate Current(rows: Rows, customer: nat, list: seq<Entry>) {
    forall e | e in list :: e.id in rows && rows[e.id].customer == customer && !rows[e.id].status.Dismissed?
  }

  ghost predicate Clean(s: State) { forall c | c in s.cache :: Current(s.rows, c, s.cache[c]) }

  /** With one handler: only the customer of a dismissal on its way to the cache
      may have a list with a dismissed row. */
  ghost predicate Inv(s: State) {
    && (forall h | h in s.handlers :: h == 0)
    && (forall c | c in s.cache :: Deleting(c) in s.handlers.Values || Current(s.rows, c, s.cache[c]))
    && (0 in s.handlers && s.handlers[0].Filling? ==> Current(s.rows, s.handlers[0].customer, s.handlers[0].list))
  }

  // ---------- one NEW row a customer ----------

  /** With one worker a lookup that found nothing is still right at the commit. */
  ghost predicate Settled(s: State) {
    && OneNew(s.rows)
    && (forall w | w in s.scorings :: w == 0)
    && (0 in s.scorings && s.scorings[0].found.None? ==> !HasNew(s.rows, s.scorings[0].customer))
  }

  /** A row found stays, so the figures reach it even when it was dismissed between
      lookup and commit, and nothing else of it changes. */
  lemma {:induction false} FoundRowIsWritten(s: State, steps: seq<Step>, step: Step)
    requires step.Write? && step.w in s.scorings && s.scorings[step.w].found.Some?
    requires s.scorings[step.w].found.value in s.rows
    requires forall x | x in steps :: !(x.Write? && x.w == step.w) && x != Abandon(step.w)
    ensures var before, after := Run(s, steps).rows, Next(Run(s, steps), step).rows;
            var row := s.scorings[step.w].found.value;
            && row in before && after == before[row := before[row].(figures := step.figures)]
            && before[row].status in {s.rows[row].status, Dismissed}
    decreases |steps|
  {
    hide Lists, HasNew;
    if steps != [] {
      assert steps[0] in steps;
      var t := Next(s, steps[0]);
      assert step.w in t.scorings && t.scorings[step.w] == s.scorings[step.w];
      FoundRowIsWritten(t, steps[1..], step);
    }
  }

  lemma WriteKeepsOneNew(rows: Rows, scoring: Scoring, id: nat, product: string, figures: Figures)
    requires OneNew(rows) && (scoring.found.None? ==> !HasNew(rows, scoring.customer))
    ensures OneNew(Written(rows, scoring, id, product, figures))
  {
    if scoring.found.None? {
      assert forall i | i in rows :: !IsNew(rows, i, scoring.customer);
    }
  }

  lemma DismissKeepsSettled(rows: Rows, customer: nat, id: nat, other: nat)
    requires CanDismiss(rows, customer, id) && OneNew(rows)
    ensures OneNew(rows[id := rows[id].(status := Dismissed)])
    ensures HasNew(rows[id := rows[id].(status := Dismissed)], other) ==> HasNew(rows, other)
  {
    var after := rows[id := rows[id].(status := Dismissed)];
    if HasNew(after, other) {
      var i :| i in after && IsNew(after, i, other);
      assert IsNew(rows, i, other);
    }
  }

  lemma StepKeepsSettled(s: State, step: Step)
    requires Settled(s) && (step.Lookup? ==> step.w == 0)
    ensures Settled(Next(s, step))
  {
    hide OneNew, HasNew, CanDismiss, Lists;
    if step.Write? && step.w in s.scorings {
      WriteKeepsOneNew(s.rows, s.scorings[step.w], step.id, step.product, step.figures);
    } else if step.DismissCommit? && CanDismiss(s.rows, step.customer, step.id) {
      DismissKeepsSettled(s.rows, step.customer, step.id, if 0 in s.scorings then s.scorings[0].customer else 0);
    }
  }

  lemma {:induction false} SettledThroughout(s: State, steps: seq<Step>)
    requires Settled(s) && ScoringWithin(steps, 1)
    ensures Settled(Run(s, steps))
    decreases |steps|
  {
    hide Settled, Next;
    if steps != [] {
      assert steps[0] in steps;
      StepKeepsSettled(s, steps[0]);
      SettledThroughout(Next(s, steps[0]), steps[1..]);
    }
  }

  const FIGURES := Figures(0.5, 0.5, 100.0, 0.1)
  const SEEN := Opportunity(7, "home_loan", FIGURES, None, New, false)

  /** Two workers look the same customer up before either commits. */
  lemma RacingScorings() returns (steps: seq<Step>)
    ensures ScoringWithin(steps, 2) && Run(START, steps).rows == map[0 := SEEN, 1 := SEEN]
  {
    hide Run;
    steps := [Lookup(0, 7, None), Lookup(1, 7, None),
              Write(0, 0, "home_loan", FIGURES), Write(1, 1, "home_loan", FIGURES)];
    RunFour(steps);
    assert "home_loan" in PRODUCTS;
    var s1 := Next(START, steps[0]);
    assert s1 == State(map[], map[], map[], map[0 := Scoring(7, None)]);
    var s2 := Next(s1, steps[1]);
    assert s2 == State(map[], map[], map[], map[0 := Scoring(7, None), 1 := Scoring(7, None)]);
    var s3 := Next(s2, steps[2]);
    assert s3 == State(map[0 := SEEN], map[], map[], map[1 := Scoring(7, None)]);
    var s4 := Next(s3, steps[3]);
    assert s4 == State(map[0 := SEEN, 1 := SEEN], map[], map[], map[]);
  }

  lemma RunFour(steps: seq<Step>)
    requires |steps| == 4
    ensures Run(START, steps) == Next(Next(Next(Next(START, steps[0]), steps[1]), steps[2]), steps[3])
  {
    hide Next;
    assert steps[1..][1..] == steps[2..] && steps[2..][1..] == steps[3..] && steps[3..][1..] == [];
    var s1 := Next(START, steps[0]);
    var s2 := Next(s1, steps[1]);
    assert Run(START, steps) == Run(s1, steps[1..]) == Run(s2, steps[2..]);
    assert Run(s2, steps[2..]) == Run(Next(s2, steps[2]), steps[3..]) == Run(Next(Next(s2, steps[2]), steps[3]), []);
  }

  /** A customer has at most one NEW opportunity, in every run, exactly when
      scorings do not overlap; reads and dismissals may interleave in any way. */
  lemma OneNewIffSerial(n: nat)
    ensures n <= 1 <==> forall steps | ScoringWithin(steps, n) :: OneNew(Run(START, steps).rows)
  {
    if n <= 1 {
      forall steps | ScoringWithin(steps, n) ensures OneNew(Run(START, steps).rows) {
        SettledThroughout(START, steps);
      }
    } else {
      var steps := RacingScorings();
      assert ScoringWithin(steps, n);
      var rows := Run(START, steps).rows;
      assert 0 in rows && 1 in rows && rows[0] == rows[1];
    }
  }

  // ---------- no dismissed row in the cache ----------

  lemma WriteKeepsCurrent(rows: Rows, scoring: Scoring, step: Step, c: nat, list: seq<Entry>)
    requires step.Write? && Current(rows, c, list)
    ensures Current(Written(rows, scoring, step.id, step.product, step.figures), c, list)
  {
  }

  lemma DismissKeepsCurrent(rows: Rows, customer: nat, id: nat, c: nat, list: seq<Entry>)
    requires CanDismiss(rows, customer, id) && Current(rows, c, list) && c != customer
    ensures Current(rows[id := rows[id].(status := Dismissed)], c, list)
  {
  }

  lemma WriteKeeps(s: State, step: Step)
    requires Inv(s) && step.Write?
    ensures Inv(Next(s, step))
  {
    hide Current;
    var t := Next(s, step);
    if step.w in s.scorings {
      forall c | c in t.cache ensures Deleting(c) in t.handlers.Values || Current(t.rows, c, t.cache[c]) {
        if Current(s.rows, c, s.cache[c]) { WriteKeepsCurrent(s.rows, s.scorings[step.w], step, c, s.cache[c]); }
      }
      if 0 in s.handlers && s.handlers[0].Filling? {
        WriteKeepsCurrent(s.rows, s.scorings[step.w], step, s.handlers[0].customer, s.handlers[0].list);
      }
    }
  }

  lemma DismissKeeps(s: State, step: Step)
    requires Inv(s) && step.DismissCommit? && step.h == 0
    ensures Inv(Next(s, step))
  {
    hide Current;
    var t := Next(s, step);
    if 0 !in s.handlers && CanDismiss(s.rows, step.customer, step.id) {
      assert t.handlers[0] == Deleting(step.customer);
      assert s.handlers == map[];
      forall c | c in t.cache ensures Deleting(c) in t.handlers.Values || Current(t.rows, c, t.cache[c]) {
        if c != step.customer { DismissKeepsCurrent(s.rows, step.customer, step.id, c, s.cache[c]); }
      }
    }
  }

  lemma OtherKeeps(s: State, step: Step)
    requires Inv(s) && !step.Write? && !step.DismissCommit? && !step.DeleteFails? && (step.Query? ==> step.h == 0)
    ensures Inv(Next(s, step))
  {
    hide Current;
    var t := Next(s, step);
    if step.Query? && t != s { ListIsCurrent(s.rows, step.customer, step.list); }
    assert step.DismissDelete? && t != s ==> s.handlers.Values == {s.handlers[0]} && s.handlers[0].customer !in t.cache;
  }

  lemma ListIsCurrent(rows: Rows, customer: nat, list: seq<Entry>)
    requires Lists(rows, customer, false, list)
    ensures Current(rows, customer, list)
  {
  }

  lemma {:induction false} RunKeeps(s: State, steps: seq<Step>)
    requires Inv(s) && Within(steps, 1) && Deletes(steps)
    ensures Inv(Run(s, steps))
    decreases |steps|
  {
    if steps != [] {
      var step := steps[0];
      assert step in steps;
      if step.Write? {
        WriteKeeps(s, step);
      } else if step.DismissCommit? {
        DismissKeeps(s, step);
      } else {
        OtherKeeps(s, step);
      }
      RunKeeps(Next(s, step), steps[1..]);
    }
  }

  /** Between requests no cached list holds a dismissed opportunity, in every run
      in which no deletion from the cache fails, exactly when requests are handled
      one at a time; scorings may interleave in any way. */
  lemma CleanIffSerial(n: nat)
    ensures n <= 1 <==>
            forall steps | Within(steps, n) && Deletes(steps) && Run(START, steps).handlers == map[] ::
              Clean(Run(START, steps))
  {
    if n <= 1 {
      forall steps | Within(steps, n) && Deletes(steps) && Run(START, steps).handlers == map[]
        ensures Clean(Run(START, steps))
      {
        RunKeeps(START, steps);
      }
    } else {
      var steps := StaleFill();
      assert Within(steps, n);
    }
  }

  /** A deletion that fails is swallowed: from a clean cache between requests, the
      dismissed row stays in a cached list exactly when it was listed there. */
  lemma FailedDeleteIsStale(s: State, customer: nat, id: nat)
    requires s.handlers == map[] && Clean(s) && CanDismiss(s.rows, customer, id)
    ensures var t := Next(Next(s, DismissCommit(0, customer, id)), DeleteFails(0));
            Clean(t) <==> customer in s.cache ==> forall e | e in s.cache[customer] :: e.id != id
  {
    hide Current;
    var t := Next(Next(s, DismissCommit(0, customer, id)), DeleteFails(0));
    assert t == State(s.rows[id := s.rows[id].(status := Dismissed)], s.cache, map[], s.scorings);
    forall c | c in s.cache
      ensures Current(t.rows, c, s.cache[c]) <==> c != customer || forall e | e in s.cache[c] :: e.id != id
    {
      DismissedIsListed(s.rows, customer, id, c, s.cache[c]);
    }
  }

  lemma DismissedIsListed(rows: Rows, customer: nat, id: nat, c: nat, list: seq<Entry>)
    requires CanDismiss(rows, customer, id) && Current(rows, c, list)
    ensures Current(rows[id := rows[id].(status := Dismissed)], c, list)
            <==> c != customer || forall e | e in list :: e.id != id
  {
  }

  /** A read that asked the database before a dismissal and fills the cache after it. */
  lemma StaleFill() returns (steps: seq<Step>)
    ensures Within(steps, 2) && Deletes(steps) && Run(START, steps).handlers == map[] && !Clean(Run(START, steps))
  {
    hide Run, Clean, Next;
    var list := [Entry(0, SEEN)];
    steps := [Lookup(0, 7, None), Write(0, 0, "home_loan", FIGURES), Query(0, 7, list),
              DismissCommit(1, 7, 0), DismissDelete(1), Fill(0)];
    RunSix(steps);
    SeenIsBeingFilled(list);
    DismissedIsFilled(list);
    DismissedIsCached(Run(START, steps));
  }

  lemma SeenIsBeingFilled(list: seq<Entry>)
    requires list == [Entry(0, SEEN)]
    ensures Next(Next(Next(START, Lookup(0, 7, None)), Write(0, 0, "home_loan", FIGURES)), Query(0, 7, list))
         == State(map[0 := SEEN], map[], map[0 := Filling(7, list)], map[])
  {
    hide Lists, Written;
    var s1 := Next(START, Lookup(0, 7, None));
    assert s1 == State(map[], map[], map[], map[0 := Scoring(7, None)]);
    SeenIsWritten();
    var s2 := Next(s1, Write(0, 0, "home_loan", FIGURES));
    assert s2 == State(map[0 := SEEN], map[], map[], map[]);
    SeenIsListed();
  }

  lemma DismissedIsFilled(list: seq<Entry>)
    ensures var s := State(map[0 := SEEN], map[], map[0 := Filling(7, list)], map[]);
            Next(Next(Next(s, DismissCommit(1, 7, 0)), DismissDelete(1)), Fill(0))
            == State(map[0 := SEEN.(status := Dismissed)], map[7 := list], map[], map[])
  {
    hide Lists, Written;
    var s := State(map[0 := SEEN], map[], map[0 := Filling(7, list)], map[]);
    var s1 := Next(s, DismissCommit(1, 7, 0));
    assert s1 == State(map[0 := SEEN.(status := Dismissed)], map[],
                       map[0 := Filling(7, list), 1 := Deleting(7)], map[]);
    var s2 := Next(s1, DismissDelete(1));
    assert s2 == State(s1.rows, map[], map[0 := Filling(7, list)], map[]);
    assert Next(s2, Fill(0)) == State(s1.rows, map[7 := list], map[], map[]);
  }

  lemma SeenIsWritten()
    ensures Written(map[], Scoring(7, None), 0, "home_loan", FIGURES) == map[0 := SEEN]
  {
    assert "home_loan" in PRODUCTS;
  }

  lemma SeenIsListed()
    ensures Lists(map[0 := SEEN], 7, false, [Entry(0, SEEN)])
  {
  }

  lemma DismissedIsCached(s: State)
    requires s.rows == map[0 := SEEN.(status := Dismissed)] && s.cache == map[7 := [Entry(0, SEEN)]]
    ensures !Clean(s)
  {
    assert s.cache[7][0] in s.cache[7];
  }

  lemma RunSix(steps: seq<Step>)
    requires |steps| == 6
    ensures Run(START, steps)
         == Next(Next(Next(Next(Next(Next(START, steps[0]), steps[1]), steps[2]), steps[3]), steps[4]), steps[5])
  {
    hide Next;
    assert steps[..4] + steps[4..] == steps;
    RunFour(steps[..4]);
    RunAppend(START, steps[..4], steps[4..]);
    var s4 := Run(START, steps[..4]);
    assert steps[4..][1..] == steps[5..] && steps[5..][1..] == [];
    assert Run(s4, steps[4..]) == Run(Next(s4, steps[4]), steps[5..]) == Run(Next(Next(s4, steps[4]), steps[5]), []);
  }

  lemma {:induction false} RunAppend(s: State, a: seq<Step>, b: seq<Step>)
    ensures Run(s, a + b) == Run(Run(s, a), b)
    decreases |a|
  {
    hide Next;
    if a == [] {
      assert a + b == b;
    } else {
      assert (a + b)[1..] == a[1..] + b;
      RunAppend(Next(s, a[0]), a[1..], b);
    }
  }

  // ---------- requests served one at a time ----------

  datatype DismissResult = NotFound | AlreadyDismissed | NowDismissed

  class Store {
    var rows: Rows
    var cache: map<nat, seq<Entry>>

    function Value(): State reads this { State(rows, cache, map[], map[]) }

    constructor ()
      ensures Value() == START
    {
      rows, cache := map[], map[];
    }

    /** `newId` is the id a new row would get. */
    method Upsert(customer: nat, newId: nat, product: string, score: real, conversion: real, revenue: real, churn: real)
      returns (id: nat)
      requires newId !in rows
      modifies this`rows
      ensures var found := if HasNew(old(rows), customer) then Some(id) else None;
              Value() == Next(Next(old(Value()), Lookup(0, customer, found)),
                              Write(0, id, product, FiguresOf(score, conversion, revenue, churn)))
      ensures IsNew(rows, id, customer)
      ensures var figures := rows[id].figures;
              && figures.score == score && figures.conversion == conversion && figures.revenue == revenue
              && figures.churnRisk == Rounded(churn, 1000)
      ensures forall other | other in old(rows) && other != id :: other in rows && rows[other] == old(rows)[other]
      ensures if exists r | r in old(rows) :: old(rows)[r].customer == customer && old(rows)[r].status.New?
              then && id in old(rows) && old(rows)[id].customer == customer && old(rows)[id].status.New?
                   && rows[id] == old(rows)[id].(figures := rows[id].figures)
              else id == newId
                   && rows[id] == Opportunity(customer, if product in PRODUCTS then product else "personal_loan",
                                              rows[id].figures, None, New, false)
    {
      var figures := FiguresOf(score, conversion, revenue, churn);
      if HasNew(rows, customer) {
        id :| id in rows && IsNew(rows, id, customer);
        rows := rows[id := rows[id].(figures := figures)];
        assert map[0 := Scoring(customer, Some(id))] - {0} == map[];
      } else {
        id := newId;
        rows := rows[id := Scored(customer, product, figures)];
        assert map[0 := Scoring(customer, None)] - {0} == map[];
      }
    }

    /** `deletes` says whether there is Redis and its deletion succeeds. */
    method Dismiss(customer: nat, id: nat, deletes: bool) returns (result: DismissResult)
      modifies this
      ensures result.NotFound? <==> !Finds(old(rows), customer, id)
      ensures result.AlreadyDismissed? <==> Finds(old(rows), customer, id) && old(rows)[id].status.Dismissed?
      ensures result.NowDismissed? <==> Finds(old(rows), customer, id) && !old(rows)[id].status.Dismissed?
      ensures Value() == Next(Next(old(Value()), DismissCommit(0, customer, id)),
                              if deletes then DismissDelete(0) else DeleteFails(0))
      ensures if result.NowDismissed?
              then && rows == old(rows)[id := old(rows)[id].(status := Dismissed)]
                   && cache == if deletes then old(cache) - {customer} else old(cache)
              else rows == old(rows) && cache == old(cache)
      ensures id in old(rows) ==>
                (result.NotFound? <==> old(rows)[id].customer != customer || old(rows)[id].deleted)
    {
      if id !in rows || rows[id].customer != customer || rows[id].deleted {
        return NotFound;
      }
      if rows[id].status.Dismissed? {
        return AlreadyDismissed;
      }
      rows := rows[id := rows[id].(status := Dismissed)];
      if deletes {
        cache := cache - {customer};
      }
      assert map[0 := Deleting(customer)] - {0} == map[];
      return NowDismissed;
    }

    /** `answer` is what the database would return; `canRead` and `canWrite` say whether
        there is Redis and its read and its write succeed. */
    method GetOpportunities(customer: nat, includeDismissed: bool, canRead: bool, canWrite: bool, answer: seq<Entry>)
      returns (list: seq<Entry>)
      requires Lists(rows, customer, includeDismissed, answer)
      modifies this`cache
      ensures var hit := !includeDismissed && canRead && customer in old(cache);
              && list == (if hit then old(cache)[customer] else answer)
              && Value() == if includeDismissed || hit then old(Value())
                            else Next(Next(old(Value()), Query(0, customer, answer)),
                                      if canWrite then Fill(0) else FillFails(0))
      ensures !includeDismissed && Clean(old(Value())) ==> Current(rows, customer, list) && Clean(Value())
      ensures (includeDismissed || !canRead || customer !in old(cache)) ==>
                && (forall id | id in rows ::
                      Entry(id, rows[id]) in list
                      <==> && rows[id].customer == customer && !rows[id].deleted
                           && (includeDismissed || rows[id].status != Dismissed))
                && (forall e | e in list :: e.id in rows && rows[e.id] == e.opportunity)
                && (forall i, j | 0 <= i < j < |list| ::
                      list[i].opportunity.figures.score >= list[j].opportunity.figures.score)
                && cache == if !includeDismissed && canWrite then old(cache)[customer := list] else old(cache)
    {
      if !includeDismissed && canRead && customer in cache {
        return cache[customer];
      }
      list := answer;
      if !includeDismissed {
        if canWrite {
          cache := cache[customer := list];
        }
        assert map[0 := Filling(customer, answer)] - {0} == map[];
      }
    }
  }

  // ---------- the morning digest's top list ----------

  const TOP: nat := 10

  predicate Eligible(o: Opportunity, mine: set<nat>) { o.customer in mine && o.status.New? && !o.deleted }

  /** A correct answer to the digest's query over the manager's live customers. */
  ghost predicate Tops(rows: Rows, mine: set<nat>, list: seq<Entry>) {
    && |list| <= TOP
    && (forall e | e in list :: e.id in rows && rows[e.id] == e.opportunity && Eligible(e.opportunity, mine))
    && BestFirst(list)
    && (forall id | id in rows && Eligible(rows[id], mine) && Entry(id, rows[id]) !in list ::
          |list| == TOP && rows[id].figures.score <= list[TOP - 1].opportunity.figures.score)
  }

  datatype Profile = Profile(creditScore: Option<int>, balance: Option<real>)

  datatype TopCustomer = TopCustomer(customer: nat, opportunity: nat, score: real, product: string,
                                     explanation: Option<string>, creditScore: Option<int>, balance: Option<real>)

  /** A missing profile leaves its columns empty, and so does a balance of zero. */
  function TopOf(e: Entry, profiles: map<nat, Profile>): TopCustomer {
    var o := e.opportunity;
    var p := if o.customer in profiles then profiles[o.customer] else Profile(None, None);
    TopCustomer(o.customer, e.id, o.figures.score, o.product, o.explanation, p.creditScore,
                if p.balance == Some(0.0) then None else p.balance)
  }

  method TopCustomers(rows: Rows, profiles: map<nat, Profile>, mine: set<nat>, answer: seq<Entry>)
    returns (top: seq<TopCustomer>)
    requires Tops(rows, mine, answer)
    ensures |top| <= 10
    ensures forall t | t in top ::
              && t.opportunity in rows
              && var o := rows[t.opportunity];
              && o.customer in mine && o.status.New? && !o.deleted
              && t.customer == o.customer && t.score == o.figures.score && t.product == o.product
              && t.explanation == o.explanation
    ensures forall t | t in top ::
              if t.customer !in profiles then t.creditScore == None && t.balance == None
              else && t.creditScore == profiles[t.customer].creditScore
                   && (t.balance == None <==> profiles[t.customer].balance in {None, Some(0.0)})
                   && (t.balance != None ==> t.balance == profiles[t.customer].balance)
    ensures forall i, j | 0 <= i < j < |top| :: top[i].opportunity != top[j].opportunity && top[i].score >= top[j].score
    ensures OneNew(rows) ==> forall i, j | 0 <= i < j < |top| :: top[i].customer != top[j].customer
    ensures forall id | id in rows && rows[id].customer in mine && rows[id].status.New? && !rows[id].deleted ::
              || (exists t | t in top :: t.opportunity == id)
              || (|top| == 10 && forall t | t in top :: rows[id].figures.score <= t.score)
  {
    top := [];
    for i := 0 to |answer|
      invariant |top| == i
      invariant forall k | 0 <= k < i :: top[k] == TopOf(answer[k], profiles)
    {
      top := top + [TopOf(answer[i], profiles)];
    }
    if OneNew(rows) {
      CustomersDiffer(rows, mine, answer);
    }
    forall id | id in rows && Eligible(rows[id], mine)
      ensures || (exists t | t in top :: t.opportunity == id)
              || (|top| == TOP && forall t | t in top :: rows[id].figures.score <= t.score)
    {
      if Entry(id, rows[id]) in answer {
        var k :| 0 <= k < |answer| && answer[k] == Entry(id, rows[id]);
        assert top[k] in top;
      }
    }
  }

  lemma CustomersDiffer(rows: Rows, mine: set<nat>, list: seq<Entry>)
    requires Tops(rows, mine, list) && OneNew(rows)
    ensures forall i, j | 0 <= i < j < |list| :: list[i].opportunity.customer != list[j].opportunity.customer
  {
    forall i, j | 0 <= i < j < |list| ensures list[i].opportunity.customer != list[j].opportunity.customer {
      assert list[i] in list && list[j] in list;
      assert list[i].id != list[j].id;
    }
  }

  lemma SeenTwice()
    ensures var rows := map[0 := SEEN, 1 := SEEN]; Tops(rows, {7}, [Entry(0, SEEN), Entry(1, SEEN)])
  {
  }

  ghost predicate CustomersOnce(list: seq<Entry>) {
    forall i, j | 0 <= i < j < |list| :: list[i].opportunity.customer != list[j].opportunity.customer
  }

  /** The digest lists no customer twice, in every run and for every manager,
      exactly when scorings do not overlap. */
  lemma TopListedOnceIffSerial(n: nat)
    ensures n <= 1 <==>
            forall steps, mine, list | ScoringWithin(steps, n) && Tops(Run(START, steps).rows, mine, list) ::
              CustomersOnce(list)
  {
    hide OneNew, Tops, Settled;
    if n <= 1 {
      forall steps, mine, list | ScoringWithin(steps, n) && Tops(Run(START, steps).rows, mine, list)
        ensures CustomersOnce(list)
      {
        OneNewIffSerial(n);
        assert OneNew(Run(START, steps).rows);
        CustomersDiffer(Run(START, steps).rows, mine, list);
      }
    } else {
      var steps := RacingScorings();
      assert ScoringWithin(steps, n);
      SeenTwice();
      var list := [Entry(0, SEEN), Entry(1, SEEN)];
      assert Tops(Run(START, steps).rows, {7}, list);
      assert list[0].opportunity.customer == list[1].opportunity.customer;
    }
  }
}
