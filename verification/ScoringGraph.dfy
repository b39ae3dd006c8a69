/** The scoring pipeline: agents wrapped by retry and failure capture, merged
    into a state whose lists only grow, routed by two conditional edges. */
module ScoringGraph {
  import opened Options

  datatype Agent =
    | CustomerIntel | TransactionIntel | EventDetection | RiskAssessment
    | OpportunityScoring | ProductRec | Explainability | OutreachGen

  datatype RiskTier = Low | Medium | High

  datatype Event = Event(kind: string, confidence: real)

  /** How an attempt of `execute` fails; only a transient failure is retried. */
  datatype Failure = Transient | PiiSafety | AgentError | Unexpected

  datatype Attempt = Returned | Raised(failure: Failure)

  datatype ErrorEntry = ErrorEntry(agent: Agent, failure: Failure)

  datatype AgentState = AgentState(
    profile: Option<string>, summary: Option<string>,
    events: seq<Event>, opportunities: seq<string>, products: seq<string>, messages: seq<string>,
    risk: Option<RiskTier>, explanation: Option<string>,
    errors: seq<ErrorEntry>, trace: seq<Agent>, shouldSkip: bool)

  const INITIAL := AgentState(None, None, [], [], [], [], None, None, [], [], false)

  /** What the agents would answer and how each of their attempts fares. */
  datatype Env = Env(
    attempt: (Agent, nat) -> Attempt,
    profile: string, summary: string, detected: seq<Event>, risk: RiskTier,
    opportunities: seq<string>, products: seq<string>, explanation: Option<string>, messages: seq<string>)

  // ---------- BaseAgent.run ----------

  const ATTEMPTS: nat := 3

  /** One call of `execute`: risk assessment raises without a profile. */
  function Execute(env: Env, agent: Agent, s: AgentState, n: nat): Attempt {
    if agent.RiskAssessment? && s.profile.None? && env.attempt(agent, n) == Returned then Raised(Unexpected)
    else env.attempt(agent, n)
  }

  predicate Retried(a: Attempt) { a == Raised(Transient) }

  /** The attempt whose result stands: the first not retried, or the last allowed. */
  function Final(env: Env, agent: Agent, s: AgentState, n: nat): Attempt
    requires n < ATTEMPTS
    decreases ATTEMPTS - n
  {
    if Retried(Execute(env, agent, s, n)) && n + 1 < ATTEMPTS then Final(env, agent, s, n + 1)
    else Execute(env, agent, s, n)
  }

  predicate Fails(env: Env, agent: Agent, s: AgentState) { Final(env, agent, s, 0).Raised? }

  method RunWithRetry(env: Env, agent: Agent, s: AgentState) returns (result: Attempt, tries: nat)
    ensures result == Final(env, agent, s, 0)
    ensures 1 <= tries <= ATTEMPTS && result == Execute(env, agent, s, tries - 1)
    ensures forall i | 0 <= i < tries - 1 :: Retried(Execute(env, agent, s, i))
    ensures Retried(result) ==> tries == ATTEMPTS
  {
    result, tries := Returned, 0;
    while tries < ATTEMPTS
      invariant tries <= ATTEMPTS
      invariant tries < ATTEMPTS ==> Final(env, agent, s, tries) == Final(env, agent, s, 0)
      invariant tries > 0 ==> result == Execute(env, agent, s, tries - 1) && Retried(result)
      invariant tries == ATTEMPTS ==> result == Final(env, agent, s, 0)
      invariant forall i | 0 <= i < tries :: Retried(Execute(env, agent, s, i))
    {
      result := Execute(env, agent, s, tries);
      tries := tries + 1;
      if !Retried(result) {
        return;
      }
    }
  }

  /** The fields a successful agent returns, added to or put into the state. */
  function Answer(env: Env, agent: Agent, s: AgentState): AgentState {
    match agent
    case CustomerIntel => s.(profile := Some(env.profile))
    case TransactionIntel => s.(summary := Some(env.summary))
    case EventDetection =>
      if s.summary.None? then s.(shouldSkip := true)
      else s.(events := s.events + env.detected, shouldSkip := env.detected == [])
    case RiskAssessment => s.(risk := Some(env.risk))
    case OpportunityScoring =>
      if s.profile.None? || s.events == [] then s else s.(opportunities := s.opportunities + env.opportunities)
    case ProductRec =>
      if s.events == [] || s.profile.None? then s else s.(products := s.products + env.products)
    case Explainability =>
      s.(explanation := if s.profile.None? || s.events == [] || s.opportunities == [] then None else env.explanation)
    case OutreachGen =>
      if s.profile.None? || s.opportunities == [] then s else s.(messages := s.messages + env.messages)
  }

  /** `run` merged into the state: the name always, then the answer or the error. */
  function Visit(env: Env, agent: Agent, s: AgentState): AgentState {
    var named := s.(trace := s.trace + [agent]);
    match Final(env, agent, s, 0)
    case Raised(f) => named.(errors := s.errors + [ErrorEntry(agent, f)])
    case Returned => Answer(env, agent, named)
  }

  // ---------- the graph ----------

  datatype Node = Run(agent: Agent) | NoOpportunity | ManualReview | End

  predicate AllLow(events: seq<Event>) { forall e | e in events :: e.confidence < 0.60 }

  function AfterEventDetection(s: AgentState): Node {
    if s.events == [] || s.shouldSkip then NoOpportunity else Run(RiskAssessment)
  }

  function AfterRiskAssessment(s: AgentState): Node {
    if s.risk == Some(High) && AllLow(s.events) then ManualReview else Run(OpportunityScoring)
  }

  function Successor(node: Node, s: AgentState): Node {
    match node
    case Run(CustomerIntel) => Run(TransactionIntel)
    case Run(TransactionIntel) => Run(EventDetection)
    case Run(EventDetection) => AfterEventDetection(s)
    case Run(RiskAssessment) => AfterRiskAssessment(s)
    case Run(OpportunityScoring) => Run(ProductRec)
    case Run(ProductRec) => Run(Explainability)
    case Run(Explainability) => Run(OutreachGen)
    case Run(OutreachGen) => End
    case NoOpportunity => End
    case ManualReview => End
    case End => End
  }

  const NO_EVENTS := "No significant life events detected"
  const FLAGGED := "This customer has been flagged for manual review"

  function Enter(env: Env, node: Node, s: AgentState): AgentState {
    match node
    case Run(agent) => Visit(env, agent, s)
    case NoOpportunity => s.(explanation := Some(NO_EVENTS))
    case ManualReview => s.(explanation := Some(FLAGGED))
    case End => s
  }

  /** Nodes left on the longest path. */
  function Depth(node: Node): nat {
    match node
    case Run(CustomerIntel) => 8
    case Run(TransactionIntel) => 7
    case Run(EventDetection) => 6
    case Run(RiskAssessment) => 5
    case Run(OpportunityScoring) => 4
    case Run(ProductRec) => 3
    case Run(Explainability) => 2
    case Run(OutreachGen) => 1
    case NoOpportunity => 1
    case ManualReview => 1
    case End => 0
  }

  function RunFrom(env: Env, node: Node, s: AgentState): AgentState
    decreases Depth(node)
  {
    if node.End? then s
    else
      var t := Enter(env, node, s);
      RunFrom(env, Successor(node, t), t)
  }

  function Score(env: Env): AgentState { RunFrom(env, Run(CustomerIntel), INITIAL) }

  /** `ainvoke`: the loop over the compiled graph. */
  method Invoke(env: Env) returns (s: AgentState)
    ensures s == Score(env) && AsAnswered(env, s)
  {
    FinalStateIsAnswers(env);
    hide Visit, AllLow, AsAnswered;
    s := INITIAL;
    var node := Run(CustomerIntel);
    while node != End
      invariant RunFrom(env, node, s) == Score(env)
      decreases Depth(node)
    {
      s := Enter(env, node, s);
      node := Successor(node, s);
    }
  }

  // ---------- what every run satisfies ----------

  /** An agent's run fails by its own attempts, or for want of a profile. */
  predicate FailsInRun(env: Env, agent: Agent) {
    || Fails(env, agent, INITIAL.(profile := Some("")))
    || (agent.RiskAssessment? && Fails(env, CustomerIntel, INITIAL))
  }

  ghost function FailedAmong(env: Env, agents: seq<Agent>): seq<Agent> {
    if agents == [] then []
    else FailedAmong(env, agents[..|agents| - 1])
         + if FailsInRun(env, agents[|agents| - 1]) then [agents[|agents| - 1]] else []
  }

  function ErrorAgents(errors: seq<ErrorEntry>): seq<Agent> {
    seq(|errors|, i requires 0 <= i < |errors| => errors[i].agent)
  }

  const SHORT := [CustomerIntel, TransactionIntel, EventDetection]
  const REVIEWED := SHORT + [RiskAssessment]
  const FULL := REVIEWED + [OpportunityScoring, ProductRec, Explainability, OutreachGen]

  /** The agents visited before a node. */
  function Before(node: Node): seq<Agent> {
    match node
    case Run(CustomerIntel) => []
    case Run(TransactionIntel) => FULL[..1]
    case Run(EventDetection) => FULL[..2]
    case NoOpportunity => SHORT
    case Run(RiskAssessment) => SHORT
    case ManualReview => REVIEWED
    case Run(OpportunityScoring) => REVIEWED
    case Run(ProductRec) => FULL[..5]
    case Run(Explainability) => FULL[..6]
    case Run(OutreachGen) => FULL[..7]
    case End => FULL
  }

  predicate PastRisk(node: Node) {
    node.ManualReview? || (node.Run? && 0 < Depth(node) <= 4)
  }

  /** Gate conditions on the state on entry to a node. */
  ghost predicate Gates(node: Node, s: AgentState) {
    && (node == Run(RiskAssessment) || PastRisk(node) ==> s.events != [] && !s.shouldSkip)
    && (node.NoOpportunity? ==> s.events == [] || s.shouldSkip)
    && (node.ManualReview? ==> s.risk == Some(High) && AllLow(s.events))
    && (node.Run? && Depth(node) <= 4 ==> !(s.risk == Some(High) && AllLow(s.events)))
    && (Depth(node) >= 4 ==> s.opportunities == [])
    && (s.opportunities != [] ==> s.profile.Some?)
    && s.messages == []
  }

  ghost predicate Inv(env: Env, node: Node, s: AgentState) {
    && s.trace == Before(node)
    && ErrorAgents(s.errors) == FailedAmong(env, s.trace)
    && (s.profile.None? <==> node == Run(CustomerIntel) || Fails(env, CustomerIntel, INITIAL))
    && (Depth(node) >= 6 ==> s.events == [] && s.risk.None? && !s.shouldSkip)
    && Gates(node, s)
  }

  /** A final state: which path was taken and why, and what it produced. */
  ghost predicate Outcome(env: Env, s: AgentState) {
    && ErrorAgents(s.errors) == FailedAmong(env, s.trace)
    && (if s.events == [] || s.shouldSkip then s.trace == SHORT
        else if s.risk == Some(High) && AllLow(s.events) then s.trace == REVIEWED
        else s.trace == FULL)
    && (s.messages != [] ==>
          && s.profile.Some? && s.events != [] && s.opportunities != []
          && !(s.risk == Some(High) && AllLow(s.events)))
  }

  lemma {:induction false} FailureAgrees(env: Env, agent: Agent, s: AgentState, t: AgentState, n: nat)
    requires n < ATTEMPTS
    requires agent.RiskAssessment? ==> (s.profile.None? <==> t.profile.None?)
    ensures Final(env, agent, s, n) == Final(env, agent, t, n)
    decreases ATTEMPTS - n
  {
    if n + 1 < ATTEMPTS {
      FailureAgrees(env, agent, s, t, n + 1);
    }
  }

  lemma RiskNeedsProfile(env: Env, s: AgentState)
    requires s.profile.None?
    ensures Fails(env, RiskAssessment, s)
  {
  }

  /** The error entry and the trace entry of one visit. */
  lemma VisitRecords(env: Env, agent: Agent, s: AgentState)
    requires agent.RiskAssessment? ==> (s.profile.None? <==> Fails(env, CustomerIntel, INITIAL))
    ensures Fails(env, agent, s) <==> FailsInRun(env, agent)
    ensures ErrorAgents(s.errors) == FailedAmong(env, s.trace) ==>
              ErrorAgents(Visit(env, agent, s).errors) == FailedAmong(env, s.trace + [agent])
    ensures Visit(env, agent, s).trace == s.trace + [agent]
  {
    if agent.RiskAssessment? && s.profile.None? {
      RiskNeedsProfile(env, s);
    } else {
      FailureAgrees(env, agent, s, INITIAL.(profile := Some("")), 0);
    }
    assert (s.trace + [agent])[..|s.trace + [agent]| - 1] == s.trace;
    if Fails(env, agent, s) {
      var e := ErrorEntry(agent, Final(env, agent, s, 0).failure);
      assert ErrorAgents(s.errors + [e]) == ErrorAgents(s.errors) + [agent];
    }
  }

  /** Visiting an agent leaves the fields it does not own alone. */
  lemma VisitOwns(env: Env, agent: Agent, s: AgentState)
    ensures var t := Visit(env, agent, s);
            && (agent.CustomerIntel? || t.profile == s.profile)
            && (agent.EventDetection? || (t.events == s.events && t.shouldSkip == s.shouldSkip))
            && (agent.RiskAssessment? || t.risk == s.risk)
            && (agent.OpportunityScoring? || t.opportunities == s.opportunities)
            && (agent.OutreachGen? || t.messages == s.messages)
  {
  }

  lemma ProfileAfter(env: Env, s: AgentState)
    requires s.profile.None?
    ensures Visit(env, CustomerIntel, s).profile.None? <==> Fails(env, CustomerIntel, INITIAL)
  {
    FailureAgrees(env, CustomerIntel, s, INITIAL, 0);
  }

  lemma EnterKeeps(env: Env, agent: Agent, s: AgentState)
    requires Inv(env, Run(agent), s) && !agent.OutreachGen?
    ensures Inv(env, Successor(Run(agent), Visit(env, agent, s)), Visit(env, agent, s))
  {
    hide FailedAmong, ErrorAgents, FailsInRun, Fails, Final, AllLow;
    VisitRecords(env, agent, s);
    VisitOwns(env, agent, s);
    var t := Visit(env, agent, s);
    match agent
    case CustomerIntel =>
      ProfileAfter(env, s);
      assert t.trace == FULL[..1];
    case TransactionIntel => assert t.trace == FULL[..2];
    case EventDetection => assert t.trace == SHORT;
    case RiskAssessment => assert t.trace == REVIEWED;
    case OpportunityScoring => assert t.trace == FULL[..5];
    case ProductRec => assert t.trace == FULL[..6];
    case Explainability => assert t.trace == FULL[..7];
  }

  lemma LastVisit(env: Env, s: AgentState)
    requires Inv(env, Run(OutreachGen), s)
    ensures Outcome(env, Visit(env, OutreachGen, s))
  {
    VisitRecords(env, OutreachGen, s);
    VisitOwns(env, OutreachGen, s);
    assert Visit(env, OutreachGen, s).trace == FULL;
  }

  lemma TerminalOutcome(env: Env, node: Node, s: AgentState)
    requires Inv(env, node, s) && (node.NoOpportunity? || node.ManualReview?)
    ensures Outcome(env, Enter(env, node, s))
  {
    assert SHORT != REVIEWED;
  }

  lemma RunEnds(env: Env, node: Node, s: AgentState)
    requires Successor(node, Enter(env, node, s)) == End && !node.End?
    ensures RunFrom(env, node, s) == Enter(env, node, s)
  {
    assert RunFrom(env, End, Enter(env, node, s)) == Enter(env, node, s);
  }

  lemma {:induction false} RunReaches(env: Env, node: Node, s: AgentState)
    requires Inv(env, node, s) && !node.End?
    ensures Outcome(env, RunFrom(env, node, s))
    decreases Depth(node)
  {
    if node.NoOpportunity? || node.ManualReview? {
      TerminalOutcome(env, node, s);
      RunEnds(env, node, s);
    } else if node == Run(OutreachGen) {
      LastVisit(env, s);
      RunEnds(env, node, s);
    } else {
      var t := Visit(env, node.agent, s);
      EnterKeeps(env, node.agent, s);
      RunGoesOn(env, node, s);
      RunReaches(env, Successor(node, t), t);
    }
  }

  lemma RunGoesOn(env: Env, node: Node, s: AgentState)
    requires node.Run? && node != Run(OutreachGen)
    ensures var t := Visit(env, node.agent, s);
            && RunFrom(env, node, s) == RunFrom(env, Successor(node, t), t)
            && !Successor(node, t).End? && Depth(Successor(node, t)) < Depth(node)
  {
    hide Visit, AllLow;
  }

  /** For every pattern of failures and every answer: the run ends on one of
      three fixed paths chosen by the events and the risk, it has exactly one
      error per failed agent in the order they ran, and it produces outreach
      only with a profile, an event and an opportunity, never when the risk is
      HIGH and every event below 0.60. */
  lemma EveryRun(env: Env)
    ensures Outcome(env, Score(env))
  {
    RunReaches(env, Run(CustomerIntel), INITIAL);
  }

  /** Whatever fails, each agent is named once and errors count the failures. */
  lemma ErrorsCountFailures(env: Env)
    ensures Score(env).trace in {SHORT, REVIEWED, FULL}
    ensures |Score(env).errors| == |FailedAmong(env, Score(env).trace)|
  {
    EveryRun(env);
    assert |ErrorAgents(Score(env).errors)| == |Score(env).errors|;
  }

  // ---------- the final state, read off the agents' answers ----------

  /** The agents before and up to event detection answered, and found something. */
  predicate FindsEvents(env: Env) {
    !FailsInRun(env, TransactionIntel) && !FailsInRun(env, EventDetection) && env.detected != []
  }

  /** A HIGH risk is assessed, and no event reaches 0.60. */
  ghost predicate NeedsReview(env: Env) {
    && FindsEvents(env) && !FailsInRun(env, RiskAssessment) && env.risk == High
    && forall e | e in env.detected :: e.confidence < 0.60
  }

  ghost predicate GoesOn(env: Env) { FindsEvents(env) && !NeedsReview(env) }

  /** An agent behind the routing ran and did not fail. */
  ghost predicate Answers(env: Env, agent: Agent) { GoesOn(env) && !FailsInRun(env, agent) }

  /** A profile and an opportunity: what explanation and outreach are made from. */
  ghost predicate HasOffer(env: Env) {
    && Answers(env, OpportunityScoring) && !FailsInRun(env, CustomerIntel) && env.opportunities != []
  }

  /** Every field of the final state in terms of what the agents answered. */
  ghost predicate AsAnswered(env: Env, s: AgentState) {
    && s.profile == (if FailsInRun(env, CustomerIntel) then None else Some(env.profile))
    && s.summary == (if FailsInRun(env, TransactionIntel) then None else Some(env.summary))
    && s.events == (if FindsEvents(env) then env.detected else [])
    && s.risk == (if FindsEvents(env) && !FailsInRun(env, RiskAssessment) then Some(env.risk) else None)
    && s.opportunities == (if HasOffer(env) then env.opportunities else [])
    && s.products == (if Answers(env, ProductRec) && !FailsInRun(env, CustomerIntel) then env.products else [])
    && s.messages == (if Answers(env, OutreachGen) && HasOffer(env) then env.messages else [])
    && s.explanation == (if !FindsEvents(env) then Some(NO_EVENTS)
                         else if NeedsReview(env) then Some(FLAGGED)
                         else if Answers(env, Explainability) && HasOffer(env) then env.explanation else None)
    && s.trace == (if !FindsEvents(env) then SHORT else if NeedsReview(env) then REVIEWED else FULL)
    && (s.shouldSkip <==> !FailsInRun(env, EventDetection) && !FindsEvents(env))
  }

  /** The same on the way: what the state holds on entry to a node. */
  ghost predicate SoFar(env: Env, node: Node, s: AgentState) {
    var d := if node.Run? then Depth(node) else 0;
    && s.trace == Before(node)
    && s.profile == (if d == 8 || FailsInRun(env, CustomerIntel) then None else Some(env.profile))
    && s.summary == (if d >= 7 || FailsInRun(env, TransactionIntel) then None else Some(env.summary))
    && s.events == (if d >= 6 || !FindsEvents(env) then [] else env.detected)
    && (s.shouldSkip <==> d < 6 && !FailsInRun(env, EventDetection) && !FindsEvents(env))
    && s.risk == (if d >= 5 || node.NoOpportunity? || FailsInRun(env, RiskAssessment) then None else Some(env.risk))
    && s.opportunities == (if d >= 4 || node.NoOpportunity? || !HasOffer(env) then [] else env.opportunities)
    && s.products == (if d >= 3 || !Answers(env, ProductRec) || FailsInRun(env, CustomerIntel) then []
                      else env.products)
    && s.explanation == (if d >= 2 || !(Answers(env, Explainability) && HasOffer(env)) then None else env.explanation)
    && s.messages == []
    && (node.NoOpportunity? ==> !FindsEvents(env))
    && (node == Run(RiskAssessment) ==> FindsEvents(env))
    && (node.ManualReview? ==> NeedsReview(env))
    && (node.Run? && d <= 4 ==> GoesOn(env))
  }

  lemma FailureKnown(env: Env, agent: Agent, s: AgentState)
    requires agent.RiskAssessment? ==> (s.profile.None? <==> FailsInRun(env, CustomerIntel))
    ensures Final(env, agent, s, 0).Raised? <==> FailsInRun(env, agent)
  {
    if agent.RiskAssessment? && s.profile.None? {
      RiskNeedsProfile(env, s);
      FailureAgrees(env, CustomerIntel, INITIAL, INITIAL.(profile := Some("")), 0);
    } else {
      FailureAgrees(env, agent, s, INITIAL.(profile := Some("")), 0);
      if agent.RiskAssessment? {
        FailureAgrees(env, CustomerIntel, INITIAL, INITIAL.(profile := Some("")), 0);
      }
    }
  }

  /** One visit: the agent's answer if it does not fail, else nothing but the error. */
  lemma VisitAnswers(env: Env, agent: Agent, s: AgentState)
    requires agent.RiskAssessment? ==> (s.profile.None? <==> FailsInRun(env, CustomerIntel))
    ensures var named := s.(trace := s.trace + [agent]);
            Visit(env, agent, s).(errors := [])
            == (if FailsInRun(env, agent) then named else Answer(env, agent, named)).(errors := [])
  {
    FailureKnown(env, agent, s);
  }

  lemma Traces()
    ensures FULL[..1] == [] + [CustomerIntel] && FULL[..2] == FULL[..1] + [TransactionIntel]
    ensures SHORT == FULL[..2] + [EventDetection] && REVIEWED == SHORT + [RiskAssessment]
    ensures FULL[..5] == REVIEWED + [OpportunityScoring] && FULL[..6] == FULL[..5] + [ProductRec]
    ensures FULL[..7] == FULL[..6] + [Explainability] && FULL == FULL[..7] + [OutreachGen]
  {
  }

  lemma ProfileSoFar(env: Env, s: AgentState)
    requires SoFar(env, Run(CustomerIntel), s)
    ensures var t := Visit(env, CustomerIntel, s); SoFar(env, Successor(Run(CustomerIntel), t), t)
  {
    hide FailsInRun, Visit, AllLow, HasOffer, Answers, NeedsReview, GoesOn, FindsEvents;
    VisitAnswers(env, CustomerIntel, s);
    Traces();
  }

  lemma SummarySoFar(env: Env, s: AgentState)
    requires SoFar(env, Run(TransactionIntel), s)
    ensures var t := Visit(env, TransactionIntel, s); SoFar(env, Successor(Run(TransactionIntel), t), t)
  {
    hide FailsInRun, Visit, AllLow, HasOffer, Answers, NeedsReview, GoesOn, FindsEvents;
    VisitAnswers(env, TransactionIntel, s);
    Traces();
  }

  lemma EventsSoFar(env: Env, s: AgentState)
    requires SoFar(env, Run(EventDetection), s)
    ensures var t := Visit(env, EventDetection, s); SoFar(env, Successor(Run(EventDetection), t), t)
  {
    hide FailsInRun, Visit, AllLow;
    VisitAnswers(env, EventDetection, s);
    Traces();
    assert [] + env.detected == env.detected;
  }

  lemma RiskSoFar(env: Env, s: AgentState)
    requires SoFar(env, Run(RiskAssessment), s)
    ensures var t := Visit(env, RiskAssessment, s); SoFar(env, Successor(Run(RiskAssessment), t), t)
  {
    hide FailsInRun, Visit;
    VisitAnswers(env, RiskAssessment, s);
    Traces();
  }

  lemma OpportunitiesSoFar(env: Env, s: AgentState)
    requires SoFar(env, Run(OpportunityScoring), s)
    ensures var t := Visit(env, OpportunityScoring, s); SoFar(env, Successor(Run(OpportunityScoring), t), t)
  {
    hide FailsInRun, Visit, AllLow, NeedsReview;
    VisitAnswers(env, OpportunityScoring, s);
    Traces();
    assert [] + env.opportunities == env.opportunities;
  }

  lemma ProductsSoFar(env: Env, s: AgentState)
    requires SoFar(env, Run(ProductRec), s)
    ensures var t := Visit(env, ProductRec, s); SoFar(env, Successor(Run(ProductRec), t), t)
  {
    hide FailsInRun, Visit, AllLow, NeedsReview, HasOffer;
    VisitAnswers(env, ProductRec, s);
    Traces();
    assert [] + env.products == env.products;
  }

  lemma ExplanationSoFar(env: Env, s: AgentState)
    requires SoFar(env, Run(Explainability), s)
    ensures var t := Visit(env, Explainability, s); SoFar(env, Successor(Run(Explainability), t), t)
  {
    hide FailsInRun, Visit, AllLow, NeedsReview;
    VisitAnswers(env, Explainability, s);
    Traces();
  }

  lemma LastSoFar(env: Env, s: AgentState)
    requires SoFar(env, Run(OutreachGen), s)
    ensures AsAnswered(env, Visit(env, OutreachGen, s))
  {
    hide FailsInRun, Visit, AllLow;
    VisitAnswers(env, OutreachGen, s);
    Traces();
    assert [] + env.messages == env.messages;
  }

  lemma {:induction false} RunAnswers(env: Env, node: Node, s: AgentState)
    requires SoFar(env, node, s) && !node.End?
    ensures AsAnswered(env, RunFrom(env, node, s))
    decreases Depth(node)
  {
    hide FailsInRun, Visit, SoFar, AsAnswered, AllLow;
    if node.NoOpportunity? || node.ManualReview? {
      TerminalAnswers(env, node, s);
      RunEnds(env, node, s);
    } else if node == Run(OutreachGen) {
      LastSoFar(env, s);
      RunEnds(env, node, s);
    } else {
      match node.agent {
        case CustomerIntel => ProfileSoFar(env, s);
        case TransactionIntel => SummarySoFar(env, s);
        case EventDetection => EventsSoFar(env, s);
        case RiskAssessment => RiskSoFar(env, s);
        case OpportunityScoring => OpportunitiesSoFar(env, s);
        case ProductRec => ProductsSoFar(env, s);
        case Explainability => ExplanationSoFar(env, s);
      }
      RunGoesOn(env, node, s);
      var t := Visit(env, node.agent, s);
      RunAnswers(env, Successor(node, t), t);
    }
  }

  lemma TerminalAnswers(env: Env, node: Node, s: AgentState)
    requires SoFar(env, node, s) && (node.NoOpportunity? || node.ManualReview?)
    ensures AsAnswered(env, Enter(env, node, s))
  {
    hide FailsInRun;
  }

  /** For every pattern of failures and every answer: the final state holds each
      agent's answer exactly if that agent was reached, did not fail and had what it
      works from; a HIGH risk with events all below 0.60 ends in manual review
      without outreach, no event at all in the short path. */
  lemma FinalStateIsAnswers(env: Env)
    ensures AsAnswered(env, Score(env))
  {
    hide FailsInRun;
    RunAnswers(env, Run(CustomerIntel), INITIAL);
  }

  // ---------- failures, read off the attempts ----------

  /** Attempt `n` is the agent's last: the third, or the first that does not fail
      transiently. */
  ghost predicate LastAttempt(env: Env, agent: Agent, n: nat) {
    && n < 3 && (forall i: nat | i < n :: env.attempt(agent, i) == Raised(Transient))
    && (n == 2 || env.attempt(agent, n) != Raised(Transient))
  }

  lemma {:induction false} FinalIsLast(env: Env, agent: Agent, s: AgentState, n: nat) returns (m: nat)
    requires n < ATTEMPTS && forall i: nat | i < n :: env.attempt(agent, i) == Raised(Transient)
    ensures LastAttempt(env, agent, m) && Final(env, agent, s, n) == Execute(env, agent, s, m)
    decreases ATTEMPTS - n
  {
    if Retried(Execute(env, agent, s, n)) && n + 1 < ATTEMPTS {
      m := FinalIsLast(env, agent, s, n + 1);
    } else {
      m := n;
    }
  }

  lemma LastIsOne(env: Env, agent: Agent, m: nat, n: nat)
    requires LastAttempt(env, agent, m) && LastAttempt(env, agent, n)
    ensures m == n
  {
  }

  /** An agent fails exactly if its last attempt raises; risk assessment also
      without a profile. */
  lemma FailsExactly(env: Env, agent: Agent, n: nat)
    requires LastAttempt(env, agent, n)
    ensures FailsInRun(env, agent)
            <==> env.attempt(agent, n).Raised? || (agent.RiskAssessment? && FailsInRun(env, CustomerIntel))
  {
    hide Final, LastAttempt;
    var m := FinalIsLast(env, agent, INITIAL.(profile := Some("")), 0);
    LastIsOne(env, agent, m, n);
    FailureAgrees(env, CustomerIntel, INITIAL, INITIAL.(profile := Some("")), 0);
  }

  /** The entry names the failure of the agent's last attempt; a risk assessment
      that had no profile to work from failed unexpectedly. */
  ghost predicate Explained(env: Env, e: ErrorEntry) {
    exists n :: LastAttempt(env, e.agent, n)
                && (env.attempt(e.agent, n) == Raised(e.failure)
                    || (e.agent.RiskAssessment? && e.failure.Unexpected? && env.attempt(e.agent, n).Returned?))
  }

  lemma VisitExplains(env: Env, agent: Agent, s: AgentState)
    requires forall e | e in s.errors :: Explained(env, e)
    ensures forall e | e in Visit(env, agent, s).errors :: Explained(env, e)
  {
    hide Final, LastAttempt;
    var n := FinalIsLast(env, agent, s, 0);
    if Final(env, agent, s, 0).Raised? {
      assert Explained(env, ErrorEntry(agent, Final(env, agent, s, 0).failure));
    }
  }

  lemma {:induction false} RunExplains(env: Env, node: Node, s: AgentState)
    requires forall e | e in s.errors :: Explained(env, e)
    ensures forall e | e in RunFrom(env, node, s).errors :: Explained(env, e)
    decreases Depth(node)
  {
    hide Visit, Explained, AllLow;
    if !node.End? {
      if node.Run? { VisitExplains(env, node.agent, s); }
      RunExplains(env, Successor(node, Enter(env, node, s)), Enter(env, node, s));
    }
  }

  /** Every captured error is that of the agent's last attempt. */
  lemma ErrorsAreExplained(env: Env)
    ensures forall e | e in Score(env).errors :: Explained(env, e)
  {
    RunExplains(env, Run(CustomerIntel), INITIAL);
  }
}
