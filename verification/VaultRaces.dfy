/** Dispatches and masking calls of one session at the same time: each reads the
    vault and writes it back later. The key does not expire in between. */
module VaultRaces {
  import opened OrderedDict
  import opened Options
  import opened Text
  import opened PiiVault
  import opened VaultSession

  /** A dispatch that found no token for its contact and chose one; a dispatch or
      masking call between the read and the write of its store. */
  datatype Client = Chosen(token: string, contact: Contact) | Storing(after: Vault, issued: Option<string>)

  /** `issued`: the tokens dispatches invented and stored, which they then send. */
  datatype State = State(vault: Vault, clients: map<nat, Client>, issued: seq<string>)

  datatype Step =
    | Look(w: nat, contact: Contact)
    | Read(w: nat)
    | MaskRead(w: nat, text: string, spans: seq<Span>)
    | Write(w: nat)
    | Abandon(w: nat)

  ghost function Start(): State { State(Empty(), map[], []) }

  ghost predicate Valid(s: State) {
    && s.vault.Valid()
    && forall w | w in s.clients && s.clients[w].Storing? :: s.clients[w].after.Valid()
  }

  ghost function Next(s: State, step: Step): (s': State)
    requires Valid(s)
    ensures Valid(s')
  {
    match step
    case Look(w, c) =>
      if w in s.clients || FirstHolding(s.vault.order, s.vault.at, c.value) < |s.vault.order| then s
      else s.(clients := s.clients[w := Chosen(Target(s.vault, c).0, c)])
    case Read(w) =>
      if w !in s.clients || !s.clients[w].Chosen? then s
      else
        var k := s.clients[w];
        s.vault.PutValid(k.token, k.contact.value);
        s.(clients := s.clients[w := Storing(s.vault.Put(k.token, k.contact.value), Some(k.token))])
    case MaskRead(w, text, spans) =>
      MaskIndexBound(text, spans);
      var mine := Mask(text, spans).vault;
      if w in s.clients || mine.order == [] then s
      else
        UpdateProperties(s.vault, mine);
        s.(clients := s.clients[w := Storing(s.vault.Update(mine), None)])
    case Write(w) =>
      if w !in s.clients || !s.clients[w].Storing? then s
      else
        var k := s.clients[w];
        State(k.after, s.clients - {w}, s.issued + if k.issued.Some? then [k.issued.value] else [])
    case Abandon(w) => s.(clients := s.clients - {w})
  }

  ghost function Run(s: State, steps: seq<Step>): (s': State)
    requires Valid(s)
    ensures Valid(s')
    decreases |steps|
  {
    if steps == [] then s else Run(Next(s, steps[0]), steps[1..])
  }

  /** At most `n` dispatches and masking calls of the session at once. */
  ghost predicate Within(steps: seq<Step>, n: nat) {
    forall step | step in steps && (step.Look? || step.MaskRead?) :: step.w < n
  }

  ghost predicate Distinct(tokens: seq<string>) {
    forall i, j | 0 <= i < j < |tokens| :: tokens[i] != tokens[j]
  }

  // ---------- one at a time ----------

  /** What a waiting client knows of the vault is still true. */
  ghost predicate UpToDate(v: Vault, k: Client)
    requires v.Valid()
  {
    match k
    case Chosen(token, c) => HoldsNo(v, c) && token == Target(v, c).0
    case Storing(after, issued) =>
      && IndexBound(after) && v.at.Keys <= after.at.Keys
      && (issued.Some? ==> issued.value !in v.at && issued.value in after.at)
  }

  /** No entry holds the contact. */
  ghost predicate HoldsNo(v: Vault, c: Contact)
    requires v.Valid()
  {
    FirstHolding(v.order, v.at, c.value) == |v.order|
  }

  ghost predicate Inv(s: State) {
    && Valid(s) && IndexBound(s.vault) && Distinct(s.issued)
    && (forall t | t in s.issued :: t in s.vault.at)
    && (forall w | w in s.clients :: w == 0 && UpToDate(s.vault, s.clients[w]))
  }

  lemma ReadKeeps(v: Vault, k: Client)
    requires IndexBound(v) && k.Chosen? && UpToDate(v, k)
    ensures UpToDate(v, Storing(v.Put(k.token, k.contact.value), Some(k.token)))
  {
    hide HasIndexUpTo, Token;
    TargetIndexBound(v, k.contact);
    IndexBoundFreshens(v, k.contact);
  }

  lemma MaskReadKeeps(v: Vault, text: string, spans: seq<Span>)
    requires IndexBound(v)
    ensures IndexBound(Mask(text, spans).vault) && UpToDate(v, Storing(v.Update(Mask(text, spans).vault), None))
  {
    hide HasIndexUpTo;
    MaskIndexBound(text, spans);
    MergeIndexBound(v, Mask(text, spans).vault);
    UpdateProperties(v, Mask(text, spans).vault);
  }

  lemma StepKeeps(s: State, step: Step)
    requires Inv(s) && (step.Look? || step.MaskRead? ==> step.w == 0)
    ensures Inv(Next(s, step))
  {
    hide IndexBound, Mask, Target, Dict.Put, Dict.Update;
    match step
    case Look(w, c) =>
    case Read(w) => if w in s.clients && s.clients[w].Chosen? { ReadKeeps(s.vault, s.clients[w]); }
    case MaskRead(w, text, spans) => MaskReadKeeps(s.vault, text, spans);
    case Write(w) =>
    case Abandon(w) =>
  }

  lemma {:induction false} RunKeeps(s: State, steps: seq<Step>)
    requires Inv(s) && Within(steps, 1)
    ensures Inv(Run(s, steps))
    decreases |steps|
  {
    hide Inv, Next;
    if steps != [] {
      assert steps[0] in steps;
      InvIsValid(s);
      StepKeeps(s, steps[0]);
      RunKeeps(Next(s, steps[0]), steps[1..]);
    }
  }

  lemma InvIsValid(s: State)
    requires Inv(s)
    ensures Valid(s)
  {
  }

  lemma StartHolds()
    ensures Inv(Start())
  {
  }

  // ---------- two at a time ----------

  lemma {:induction false} RunAppend(s: State, a: seq<Step>, b: seq<Step>)
    requires Valid(s)
    ensures Run(s, a + b) == Run(Run(s, a), b)
    decreases |a|
  {
    hide Next, Valid;
    if a == [] {
      assert a + b == b;
    } else {
      assert (a + b)[1..] == a[1..] + b;
      RunAppend(Next(s, a[0]), a[1..], b);
    }
  }

  lemma RunTwo(s: State, a: Step, b: Step)
    requires Valid(s)
    ensures Run(s, [a, b]) == Next(Next(s, a), b)
  {
    hide Next, Valid;
    assert [a, b][1..] == [b] && [b][1..] == [];
    assert Run(Next(s, a), [b]) == Run(Next(Next(s, a), b), []);
  }

  /** The store of a dispatch, read and write in a row. */
  lemma StoreRuns(s: State, w: nat)
    requires Valid(s) && w in s.clients && s.clients[w].Chosen?
    ensures var k := s.clients[w];
            Run(s, [Read(w), Write(w)])
            == State(s.vault.Put(k.token, k.contact.value), s.clients - {w}, s.issued + [k.token])
  {
    hide Dict.Put, Dict.Valid;
    RunTwo(s, Read(w), Write(w));
    var k := s.clients[w];
    assert s.clients[w := Storing(s.vault.Put(k.token, k.contact.value), Some(k.token))] - {w} == s.clients - {w};
  }

  /** Two dispatches to different customers look before either stores. */
  lemma RacingDispatches(x: string, y: string) returns (steps: seq<Step>)
    requires x != y
    ensures Within(steps, 2)
    ensures Run(Start(), steps).issued == [Token("PHONE", 1), Token("PHONE", 1)]
    ensures Run(Start(), steps).vault == Dict([Token("PHONE", 1)], map[Token("PHONE", 1) := y])
  {
    hide Run, Token, Next, Dict.Valid, Valid;
    var looks := [Look(0, Phone(x)), Look(1, Phone(y))];
    var a, b := [Read(0), Write(0)], [Read(1), Write(1)];
    steps := looks + (a + b);
    BothLook(x, y);
    RunAppend(Start(), looks, a + b);
    RunTwo(Start(), looks[0], looks[1]);
    var s := Run(Start(), looks);
    RunAppend(s, a, b);
    StoreRuns(s, 0);
    var t := Run(s, a);
    StoreRuns(t, 1);
  }

  lemma BothLook(x: string, y: string)
    ensures Valid(Start()) && Valid(Next(Start(), Look(0, Phone(x))))
    ensures Next(Next(Start(), Look(0, Phone(x))), Look(1, Phone(y)))
         == State(Empty(), map[0 := Chosen(Token("PHONE", 1), Phone(x)), 1 := Chosen(Token("PHONE", 1), Phone(y))], [])
  {
    hide Token;
    var s := Next(Start(), Look(0, Phone(x)));
    assert s == State(Empty(), map[0 := Chosen(Token("PHONE", 1), Phone(x))], []);
  }

  /** Then the first customer's message is sent to the second customer. */
  lemma MessageReachesOther(x: string, y: string) returns (steps: seq<Step>)
    requires x != y
    ensures Within(steps, 2)
    ensures var s := Run(Start(), steps);
            && s.issued == [Token("PHONE", 1), Token("PHONE", 1)]
            && Tokens(s.vault.order, s.vault.at)
            && UnmaskWith(s.vault.order, s.vault.at, s.issued[0]) == y
  {
    hide Run, Token, Bracketed;
    steps := RacingDispatches(x, y);
    var t := Token("PHONE", 1);
    TokenBracketed("PHONE", 1);
    UnmaskPasses([t], map[t := y], t, 0);
    assert [t][1..] == [];
  }

  /** No token is invented and stored twice, in every run while the session's key
      lasts, exactly when the session's dispatches and masking calls come one at
      a time. */
  lemma InventedOnceIffSerial(n: nat)
    ensures n <= 1 <==> forall steps | Within(steps, n) :: Valid(Start()) && Distinct(Run(Start(), steps).issued)
  {
    hide Run, Token;
    StartHolds();
    if n <= 1 {
      forall steps | Within(steps, n) ensures Distinct(Run(Start(), steps).issued) {
        RunKeeps(Start(), steps);
      }
    } else {
      var steps := RacingDispatches("1", "2");
      assert Within(steps, n);
      assert Run(Start(), steps).issued[0] == Run(Start(), steps).issued[1];
    }
  }
}
