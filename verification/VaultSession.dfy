/** A session's vault over time: masking calls merge into it, dispatches look
    up or add the token of a contact, and the key may expire. */
module VaultSession {
  import opened OrderedDict
  import opened Text
  import opened PiiVault

  datatype Contact = Phone(value: string) | Email(value: string) {
    /** The prefix that masking gives a detection of the same kind. */
    function Prefix(): (p: string)
      ensures p == PrefixOf(if Phone? then "PHONE_NUMBER" else "EMAIL_ADDRESS")
    {
      if Phone? then "PHONE" else "EMAIL"
    }
  }

  datatype Step =
    | MaskStep(text: string, spans: seq<Span>)
    | TargetStep(contact: Contact)
    | Expire

  /** Position of the first entry holding `value`, or the length if none does. */
  function FirstHolding(order: seq<string>, at: map<string, string>, value: string): (i: nat)
    requires forall t | t in order :: t in at
    ensures i <= |order| && (i < |order| ==> at[order[i]] == value)
    ensures forall j | 0 <= j < i :: at[order[j]] != value
  {
    if order == [] || at[order[0]] == value then 0
    else 1 + FirstHolding(order[1..], at, value)
  }

  /** The token a dispatch sends to the provider, and the vault it leaves. */
  function Target(v: Vault, c: Contact): (string, Vault)
    requires v.Valid()
  {
    var i := FirstHolding(v.order, v.at, c.value);
    if i < |v.order| then (v.order[i], v)
    else
      var token := Token(c.Prefix(), |v.order| + 1);
      (token, v.Put(token, c.value))
  }

  ghost function Apply(v: Vault, s: Step): (v': Vault)
    requires IndexBound(v)
    ensures IndexBound(v')
  {
    match s
    case MaskStep(text, spans) =>
      MaskIndexBound(text, spans);
      MergeIndexBound(v, Mask(text, spans).vault);
      v.Update(Mask(text, spans).vault)
    case TargetStep(c) =>
      TargetIndexBound(v, c);
      Target(v, c).1
    case Expire => Empty()
  }

  ghost function Run(v: Vault, steps: seq<Step>): (v': Vault)
    requires IndexBound(v)
    ensures IndexBound(v')
    decreases |steps|
  {
    if steps == [] then v else Run(Apply(v, steps[0]), steps[1..])
  }

  lemma MergeIndexBound(v: Vault, w: Vault)
    requires IndexBound(v) && IndexBound(w)
    ensures IndexBound(v.Update(w))
  {
    UpdateProperties(v, w);
    var u := v.Update(w);
    forall k | k in u.at ensures HasIndexUpTo(k, |u.order|) {
      var p, n :| IsLabel(p) && 1 <= n <= (if k in w.at then |w.order| else |v.order|) && k == Token(p, n);
    }
  }

  lemma TargetIndexBound(v: Vault, c: Contact)
    requires IndexBound(v)
    ensures IndexBound(Target(v, c).1)
  {
    var u := Target(v, c).1;
    assert IsLabel(c.Prefix());
    v.PutValid(Token(c.Prefix(), |v.order| + 1), c.value);
    forall k | k in u.at ensures HasIndexUpTo(k, |u.order|) {
      if k in v.at {
        var p, n :| IsLabel(p) && 1 <= n <= |v.order| && k == Token(p, n);
      }
    }
  }

  /** In every run of a session every index n in the vault is between 1 and the
      vault's size, so the token a dispatch invents has never been used. */
  lemma InventedTokenIsFresh(steps: seq<Step>, c: Contact)
    ensures IndexBound(Run(Empty(), steps))
    ensures var v := Run(Empty(), steps);
            (forall t | t in v.at :: v.at[t] != c.value) ==>
              && Target(v, c).0 !in v.at
              && Target(v, c).1 == v.Put(Target(v, c).0, c.value)
  {
    var v := Run(Empty(), steps);
    IndexBoundFreshens(v, c);
  }

  lemma IndexBoundFreshens(v: Vault, c: Contact)
    requires IndexBound(v)
    ensures Token(c.Prefix(), |v.order| + 1) !in v.at
  {
    var k := Token(c.Prefix(), |v.order| + 1);
    assert IsLabel(c.Prefix());
    if k in v.at {
      var p, n :| IsLabel(p) && 1 <= n <= |v.order| && k == Token(p, n);
      TokenInjective(p, n, c.Prefix(), |v.order| + 1);
    }
  }

  // ---------- what the provider's unmask turns the token into ----------

  lemma {:induction false} UnmaskPasses(order: seq<string>, at: map<string, string>, token: string, i: nat)
    requires Tokens(order, at) && i < |order| && order[i] == token
    requires forall j | 0 <= j < i :: order[j] != token
    ensures Tokens(order[i + 1..], at)
    ensures UnmaskWith(order, at, token) == UnmaskWith(order[i + 1..], at, at[token])
    decreases i
  {
    hide Replace;
    assert token + [] == token;
    if i == 0 {
      ReplaceNothing(token, at[token]);
      ReplaceLeading(token, [], at[token]);
      assert at[token] + [] == at[token];
    } else {
      ReplaceSkipsToken(token, [], order[0], at[order[0]]);
      ReplaceNothing(order[0], at[order[0]]);
      UnmaskPasses(order[1..], at, token, i - 1);
      assert order[1..][i..] == order[i + 1..];
    }
  }

  lemma ReplaceNothing(t: string, v: string)
    requires t != []
    ensures Replace([], t, v) == []
  {
  }

  lemma {:induction false} UnmaskAbsent(order: seq<string>, at: map<string, string>, s: string)
    requires Tokens(order, at) && forall t | t in order :: !Occurs(s, t)
    ensures UnmaskWith(order, at, s) == s
  {
    if order != [] {
      ReplaceAbsent(s, order[0], at[order[0]]);
      UnmaskAbsent(order[1..], at, s);
    }
  }

  /** Some entry already holds the contact. */
  ghost predicate Holds(v: Vault, value: string) {
    exists t | t in v.at :: v.at[t] == value
  }

  ghost predicate NoTokenIn(v: Vault, s: string) {
    forall t | t in v.at :: !Occurs(s, t)
  }

  lemma TargetUnmasks(v: Vault, c: Contact)
    requires IndexBound(v) && (Holds(v, c.value) ==> NoTokenIn(v, c.value))
    ensures var (token, w) := Target(v, c);
            Tokens(w.order, w.at) && UnmaskWith(w.order, w.at, token) == c.value
  {
    var (token, w) := Target(v, c);
    TargetIndexBound(v, c);
    BoundIsBracketed(w);
    IndexBoundFreshens(v, c);
    var i := FirstHolding(v.order, v.at, c.value);
    UnmaskPasses(w.order, w.at, token, i);
    if i < |v.order| {
      assert v.order[i] in v.at;
      UnmaskAbsent(w.order[i + 1..], w.at, c.value);
    }
  }

  /** In every session run the provider, unmasking straight after the choice,
      reaches exactly the customer's contact: always when the token was
      invented, and when it was found, unless a vault token occurs in the contact. */
  lemma ProviderReachesContact(steps: seq<Step>, c: Contact)
    requires Holds(Run(Empty(), steps), c.value) ==> NoTokenIn(Run(Empty(), steps), c.value)
    ensures var (token, w) := Target(Run(Empty(), steps), c);
            Tokens(w.order, w.at) && UnmaskWith(w.order, w.at, token) == c.value
  {
    TargetUnmasks(Run(Empty(), steps), c);
  }

  // ---------- round trip of the latest masking of a session ----------

  lemma {:induction false} TargetsKeepBindings(v: Vault, steps: seq<Step>)
    requires IndexBound(v) && forall s | s in steps :: s.TargetStep?
    ensures forall t | t in v.at :: t in Run(v, steps).at && Run(v, steps).at[t] == v.at[t]
    decreases |steps|
  {
    if steps != [] {
      IndexBoundFreshens(v, steps[0].contact);
      TargetsKeepBindings(Apply(v, steps[0]), steps[1..]);
    }
  }

  /** Whatever a session did before, and whatever dispatches follow, unmasking
      the latest masked text gives the text back in any order of the vault,
      unless one of the vault's tokens occurs in it. */
  lemma LatestMaskRoundTrips(before: seq<Step>, text: string, spans: seq<Span>, after: seq<Step>, order: seq<string>)
    requires Disjoint(text, spans) && forall s | s in after :: s.TargetStep?
    requires var v := Run(Apply(Run(Empty(), before), MaskStep(text, spans)), after);
             && (forall t :: t in order <==> t in v.at)
             && (forall t | t in v.at :: !Occurs(text, t))
    ensures var v := Run(Apply(Run(Empty(), before), MaskStep(text, spans)), after);
            && Tokens(order, v.at)
            && UnmaskWith(order, v.at, Mask(text, spans).masked) == text
  {
    var v := Run(Empty(), before);
    var masked := Apply(v, MaskStep(text, spans));
    MaskIndexBound(text, spans);
    UpdateProperties(v, Mask(text, spans).vault);
    TargetsKeepBindings(masked, after);
    UnmaskInvertsMask(text, spans, Run(masked, after), order);
  }

  // ---------- where restoring fails, and exactly when ----------

  /** Whatever happens to the session between the choice and the provider's
      unmask, the message reaches the contact exactly when the vault still turns
      the chosen token into it. */
  lemma StepsBetweenChoiceAndSend(v: Vault, c: Contact, between: seq<Step>)
    requires IndexBound(v)
    requires var u := Run(Apply(v, TargetStep(c)), between); NoTokenIn(u, Value(u.at, Target(v, c).0))
    ensures var (token, _) := Target(v, c);
            var u := Run(Apply(v, TargetStep(c)), between);
            && Tokens(u.order, u.at)
            && (UnmaskWith(u.order, u.at, token) == c.value <==> Value(u.at, token) == c.value)
  {
    var (token, w) := Target(v, c);
    var u := Run(w, between);
    BoundIsBracketed(u);
    if token in u.at {
      var i := KeyPosition(u.order, token);
      UnmaskPasses(u.order, u.at, token, i);
      UnmaskAbsent(u.order[i + 1..], u.at, u.at[token]);
    } else {
      UnmaskAbsent(u.order, u.at, token);
    }
  }

  /** A masking call rebinds a token exactly when it issues it itself, so after
      one the message still reaches the contact exactly when the call did not
      issue the token, or issued it for the same contact. */
  lemma MaskBetweenChoiceAndSend(v: Vault, c: Contact, text: string, spans: seq<Span>)
    requires IndexBound(v)
    requires var u := Apply(Apply(v, TargetStep(c)), MaskStep(text, spans));
             NoTokenIn(u, Value(u.at, Target(v, c).0))
    ensures var (token, _) := Target(v, c);
            var issued := Mask(text, spans).vault.at;
            var u := Apply(Apply(v, TargetStep(c)), MaskStep(text, spans));
            && Tokens(u.order, u.at)
            && (UnmaskWith(u.order, u.at, token) == c.value
                <==> (token in issued ==> issued[token] == c.value))
  {
    var (token, w) := Target(v, c);
    MaskIndexBound(text, spans);
    UpdateProperties(w, Mask(text, spans).vault);
    hide UnmaskWith, Mask, Tokens;
    var step := MaskStep(text, spans);
    assert [step][1..] == [] && Run(w, [step]) == Run(Apply(w, step), []);
    StepsBetweenChoiceAndSend(v, c, [step]);
    TargetBinds(v, c);
  }

  lemma TargetBinds(v: Vault, c: Contact)
    requires v.Valid()
    ensures Target(v, c).0 in Target(v, c).1.at && Target(v, c).1.at[Target(v, c).0] == c.value
  {
  }

  lemma KeyPosition(order: seq<string>, token: string) returns (i: nat)
    requires token in order
    ensures i < |order| && order[i] == token && forall j | 0 <= j < i :: order[j] != token
  {
    i := 0;
    while order[i] != token
      invariant i < |order| && token in order[i..]
      invariant forall j | 0 <= j < i :: order[j] != token
      decreases |order| - i
    {
      i := i + 1;
    }
  }

  lemma MaskPair(text: string, m: Masking, x: Span, y: Span, spans: seq<Span>)
    requires y.start <= x.start && (spans == [x, y] || (y.start < x.start && spans == [y, x]))
    ensures SortByStart(spans) == [x, y]
    ensures MaskSpans(text, m, [x, y]) == MaskSpan(text, MaskSpan(text, m, x), y)
  {
    assert spans[1..] == [spans[1]] && [spans[1]][1..] == [];
    assert SortByStart([spans[1]]) == [spans[1]];
    assert [x][1..] == [] && InsertByStart(y, [x][1..]) == [y];
    assert [x, y][1..] == [y] && [y][1..] == [];
    assert MaskSpans(text, MaskSpan(text, m, x), [y]) == MaskSpan(text, MaskSpan(text, m, x), y);
  }

  // ---------- older masked texts of a session ----------

  /** Whatever a session did before and after, expiry and further masking
      included: a masked text of it is restored exactly when the vault still
      turns each of its tokens into the stretch it stood for, if their lengths
      did not change in opposite directions. */
  lemma OlderMaskRestored(before: seq<Step>, text: string, spans: seq<Span>, after: seq<Step>, order: seq<string>)
    requires Disjoint(text, spans)
    requires var v := Run(Apply(Run(Empty(), before), MaskStep(text, spans)), after);
             && (forall t :: t in order <==> t in v.at)
             && NoTokenIn(v, Reading(text, spans, v.at))
             && (Longer(Mask(text, spans).vault.at, v.at) || Shorter(Mask(text, spans).vault.at, v.at))
    ensures var v := Run(Apply(Run(Empty(), before), MaskStep(text, spans)), after);
            && Tokens(order, v.at)
            && (UnmaskWith(order, v.at, Mask(text, spans).masked) == text <==> Keeps(Mask(text, spans).vault.at, v.at))
  {
    hide UnmaskWith, Reading, Mask, Longer, Shorter, Keeps, Apply, Tokens;
    var v := Run(Apply(Run(Empty(), before), MaskStep(text, spans)), after);
    RestoredExactly(text, spans, v, order);
  }

  lemma OneSpanMask(text: string, s: Span)
    requires s.start < s.end <= |text|
    ensures Disjoint(text, [s])
    ensures Mask(text, [s]).vault.at == map[Token(PrefixOf(s.entity), 1) := text[s.start..s.end]]
  {
    var m0 := Masking(text, Empty(), map[]);
    assert [s][1..] == [] && SortByStart([s]) == [s];
    assert MaskSpans(text, m0, [s]) == MaskSpan(text, m0, s);
    Stretch(text, s);
  }

  /** With one detection no proviso on lengths is needed. */
  lemma OlderSingleMaskRestored(before: seq<Step>, text: string, s: Span, after: seq<Step>, order: seq<string>)
    requires s.start < s.end <= |text| && Disjoint(text, [s])
    requires var v := Run(Apply(Run(Empty(), before), MaskStep(text, [s])), after);
             (forall t :: t in order <==> t in v.at) && NoTokenIn(v, Reading(text, [s], v.at))
    ensures var v := Run(Apply(Run(Empty(), before), MaskStep(text, [s])), after);
            && Tokens(order, v.at)
            && (UnmaskWith(order, v.at, Mask(text, [s]).masked) == text
                <==> Value(v.at, Token(PrefixOf(s.entity), 1)) == text[s.start..s.end])
  {
    hide UnmaskWith, Reading, Mask, Apply, Tokens, Token, PrefixOf, NoTokenIn;
    var v := Run(Apply(Run(Empty(), before), MaskStep(text, [s])), after);
    OneSpanMask(text, s);
    OneWayIfOne(Mask(text, [s]).vault.at, v.at, Token(PrefixOf(s.entity), 1));
    OlderMaskRestored(before, text, [s], after, order);
  }

  /** Adjacent stretches of two kinds: the masked text does not show where the
      one ended and the other began. */
  lemma AdjacentMask(text: string, k: nat, e: string, f: string)
    requires 0 < k < |text| && PrefixOf(e) != PrefixOf(f)
    ensures var m := Mask(text, [Span(k, |text|, f), Span(0, k, e)]);
            && m.masked == Token(PrefixOf(e), 1) + Token(PrefixOf(f), 1)
            && m.vault.at == map[Token(PrefixOf(f), 1) := text[k..], Token(PrefixOf(e), 1) := text[..k]]
  {
    hide Token, MaskSpans, SortByStart, PrefixOf;
    var x, y, m0 := Span(k, |text|, f), Span(0, k, e), Masking(text, Empty(), map[]);
    MaskPair(text, m0, x, y, [x, y]);
    var t := Token(PrefixOf(f), 1);
    TwoHalves(text, k, t);
    assert MaskSpan(text, m0, x).masked == text[..k] + t;
  }

  lemma TwoHalves(text: string, k: nat, t: string)
    requires 0 < k < |text|
    ensures From(Before(text, |text|), k) == text[k..] && From(Before(text, k), 0) == text[..k]
    ensures Before(text, k) + t + From(text, |text|) == text[..k] + t
    ensures From(text[..k] + t, k) == t && Before(text[..k] + t, 0) == []
  {
  }

  /** Why lengths matter: lengths changed in opposite directions, both tokens
      stand for something else, and the older masked text is still restored. */
  lemma OppositeChangesRestore(text: string, e: string, f: string, order: seq<string>)
    requires |text| >= 3 && '[' !in text && PrefixOf(e) != PrefixOf(f)
    requires forall t :: t in order <==> t in Mask(text, [Span(1, |text|, f), Span(0, 1, e)]).vault.at
    ensures var older := Mask(text, [Span(2, |text|, f), Span(0, 2, e)]);
            var later := Mask(text, [Span(1, |text|, f), Span(0, 1, e)]);
            && Tokens(order, later.vault.at)
            && UnmaskWith(order, later.vault.at, older.masked) == text
            && !Keeps(older.vault.at, later.vault.at)
  {
    hide Mask, UnmaskWith, Occurs, Token, PrefixOf, Bracketed;
    var older := Mask(text, [Span(2, |text|, f), Span(0, 2, e)]);
    var later := Mask(text, [Span(1, |text|, f), Span(0, 1, e)]);
    AdjacentMask(text, 2, e, f);
    AdjacentMask(text, 1, e, f);
    MaskIndexBound(text, [Span(1, |text|, f), Span(0, 1, e)]);
    BoundIsBracketed(later.vault);
    forall t | t in later.vault.at ensures !Occurs(text, t) { NoBracketNoToken(text, t); }
    UnmaskInvertsMask(text, [Span(1, |text|, f), Span(0, 1, e)], later.vault, order);
    var t := Token(PrefixOf(e), 1);
    assert t in older.vault.at && older.vault.at[t] == text[..2] && Value(later.vault.at, t) == text[..1];
    assert |text[..2]| != |text[..1]|;
  }

  lemma WholeTextMask(text: string, e: string)
    requires text != []
    ensures var t := Token(PrefixOf(e), 1);
            && Mask(text, [Span(0, |text|, e)]).masked == t
            && Mask(text, [Span(0, |text|, e)]).vault == Dict([t], map[t := text])
  {
    hide Token, PrefixOf;
    var s := Span(0, |text|, e);
    var m0 := Masking(text, Empty(), map[]);
    assert SortByStart([s]) == [s];
    assert MaskSpans(text, m0, [s]) == MaskSpan(text, m0, s) by {
      assert [s][1..] == [];
    }
    assert From(Before(text, |text|), 0) == text;
    assert Before(text, 0) == [] && From(text, |text|) == [];
  }

  /** Counters restart at every call: after two masking calls of a session the
      first masked text is read as the second text. */
  lemma EarlierMaskReadsAsLater(x: string, y: string, e: string)
    requires x != [] && y != [] && '[' !in y
    ensures var v := Run(Empty(), [MaskStep(x, [Span(0, |x|, e)]), MaskStep(y, [Span(0, |y|, e)])]);
            && Tokens(v.order, v.at)
            && UnmaskWith(v.order, v.at, Mask(x, [Span(0, |x|, e)]).masked) == y
  {
    hide Token, PrefixOf, Mask, Bracketed, Dict.Update;
    var t := Token(PrefixOf(e), 1);
    var s1, s2 := MaskStep(x, [Span(0, |x|, e)]), MaskStep(y, [Span(0, |y|, e)]);
    WholeTextMask(x, e);
    WholeTextMask(y, e);
    var v1 := Apply(Empty(), s1);
    assert v1 == Dict([t], map[t := x]) by {
      OneEntryUpdate(Empty(), t, x);
    }
    var v2 := Apply(v1, s2);
    assert v2 == Dict([t], map[t := y]) by {
      OneEntryUpdate(v1, t, y);
    }
    assert Run(Empty(), [s1, s2]) == v2 by {
      assert [s1, s2][1..] == [s2] && [s2][1..] == [];
      assert Run(v1, [s2]) == Run(v2, []);
    }
    TokenBracketed(PrefixOf(e), 1);
    UnmaskPasses([t], v2.at, t, 0);
    assert [t][1..] == [];
  }

  lemma OneEntryUpdate(v: Vault, t: string, x: string)
    requires v.Valid()
    ensures v.Update(Dict([t], map[t := x])) == v.Put(t, x)
  {
    assert [t][1..] == [];
    assert v.PutAll([t], map[t := x]) == v.Put(t, x).PutAll([], map[t := x]);
  }
}
