/** The quarter-hourly scan: which customers it picks up, what it can detect,
    and the events it stores. */
module EventScan {
  import opened Options
  import opened OrderedDict
  import opened Text
  import T = TransactionIntel
  import opened EventDetection

  type Summary = T.Summary

  // ---------- the scan's own summary ----------

  /** `category` is the stored merchant category, empty if there is none; it is
      usually a merchant code, but any short text can be stored there. */
  datatype Txn = Txn(debit: bool, amount: real, category: string, merchant: string) {
    predicate Named(word: string) { Occurs(Lower(merchant), word) }
  }

  function Spent(txns: seq<Txn>, on: Txn -> bool): real {
    if txns == [] then 0.0
    else Spent(txns[..|txns| - 1], on) + if on(txns[|txns| - 1]) then txns[|txns| - 1].amount else 0.0
  }

  function IsDebit(): Txn -> bool { (t: Txn) => t.debit }

  function IsCredit(): Txn -> bool { (t: Txn) => !t.debit }

  function OnJewellery(): Txn -> bool {
    (t: Txn) => t.debit && (t.category == "5094" || t.Named("jeweller") || t.Named("tanishq"))
  }

  function OnBanquets(): Txn -> bool {
    (t: Txn) => t.debit && (t.category == "7922" || t.Named("banquet") || t.Named("palace banquet"))
  }

  function OnProperty(): Txn -> bool {
    (t: Txn) => t.debit && (t.category == "6552" || t.Named("properties") || t.Named("dlf"))
  }

  function OnVendors(): Txn -> bool {
    (t: Txn) => t.debit && (t.category == "5065" || t.Named("vendor") || t.Named("supplier"))
  }

  function OnForex(): Txn -> bool { (t: Txn) => t.debit && (t.Named("international wire") || t.Named("offshore")) }

  /** The home purchase rule's words in the name of a category. */
  predicate Furnishing(category: string) { Occurs(category, "furniture") || Occurs(category, "interior") }

  function OnFurnishing(): Txn -> bool {
    (t: Txn) => t.debit && (Occurs(t.category, "furniture") || Occurs(t.category, "interior"))
  }

  predicate VisaFee(category: string) { Occurs(Lower(category), "visa") }

  function HowMany(txns: seq<Txn>, of: Txn -> bool): nat {
    if txns == [] then 0 else HowMany(txns[..|txns| - 1], of) + if of(txns[|txns| - 1]) then 1 else 0
  }

  function BetterCredit(best: Option<real>, t: Txn): Option<real> {
    if !t.debit && t.amount > 100000.0 && (best.None? || t.amount > best.value) then Some(t.amount) else best
  }

  function LargestCredit(txns: seq<Txn>): Option<real> {
    if txns == [] then None else BetterCredit(LargestCredit(txns[..|txns| - 1]), txns[|txns| - 1])
  }

  type Totals = Dict<string, real>

  function WithDebit(totals: Totals, t: Txn): Totals {
    if t.debit then totals.Put(t.category, totals.Get(t.category, 0.0) + t.amount) else totals
  }

  /** Debits by stored category, which is also the category's name. */
  function CategoryTotals(txns: seq<Txn>): Totals {
    if txns == [] then Empty() else WithDebit(CategoryTotals(txns[..|txns| - 1]), txns[|txns| - 1])
  }

  function FurnitureTotal(totals: Totals, names: seq<string>): real {
    if names == [] then 0.0
    else FurnitureTotal(totals, names[..|names| - 1])
         + if Furnishing(names[|names| - 1]) then totals.Get(names[|names| - 1], 0.0) else 0.0
  }

  /** What the rules read off the names of the categories. */
  function ExtrasOf(totals: Totals): T.Extras {
    T.Extras(FurnitureTotal(totals, totals.order), exists name | name in totals.order :: VisaFee(name), None)
  }

  function MinimalSummary(debits: real, credits: real, jewellery: real, banquets: real, property: real, forex: real,
                          hasProperty: bool, vendors: nat, credit: Option<real>, totals: Totals): Summary
  {
    var amounts: Dict<T.Category, real> :=
      Dict([T.Jewellery, T.EventsEntertainment, T.RealEstate, T.International],
           map[T.Jewellery := jewellery, T.EventsEntertainment := banquets,
               T.RealEstate := property, T.International := forex]);
    var counts: Dict<T.Category, nat> := Dict([T.VendorPayments], map[T.VendorPayments := vendors]);
    T.Summary(debits, credits, amounts, counts, credit, None, false, Empty(), hasProperty, ExtrasOf(totals))
  }

  function SummaryOf(txns: seq<Txn>): Summary {
    MinimalSummary(Spent(txns, IsDebit()), Spent(txns, IsCredit()),
                   Spent(txns, OnJewellery()), Spent(txns, OnBanquets()),
                   Spent(txns, OnProperty()), Spent(txns, OnForex()), HowMany(txns, OnProperty()) > 0,
                   HowMany(txns, OnVendors()), LargestCredit(txns), CategoryTotals(txns))
  }

  lemma SpentNext(txns: seq<Txn>, i: nat, on: Txn -> bool)
    requires i < |txns|
    ensures Spent(txns[..i + 1], on) == Spent(txns[..i], on) + if on(txns[i]) then txns[i].amount else 0.0
    ensures HowMany(txns[..i + 1], on) == HowMany(txns[..i], on) + if on(txns[i]) then 1 else 0
  {
    assert txns[..i + 1][..i] == txns[..i];
  }

  lemma OtherNext(txns: seq<Txn>, i: nat)
    requires i < |txns|
    ensures LargestCredit(txns[..i + 1]) == BetterCredit(LargestCredit(txns[..i]), txns[i])
    ensures CategoryTotals(txns[..i + 1]) == WithDebit(CategoryTotals(txns[..i]), txns[i])
  {
    assert txns[..i + 1][..i] == txns[..i];
  }

  /** `_build_minimal_txn_summary`: one loop over the transactions. */
  method BuildMinimalSummary(txns: seq<Txn>) returns (summary: Summary)
    ensures summary == SummaryOf(txns)
  {
    hide Spent, HowMany, LargestCredit, CategoryTotals, Txn.Named, Dict.Put, Dict.Get;
    var debits, credits, jewellery, banquets, property, forex := 0.0, 0.0, 0.0, 0.0, 0.0, 0.0;
    var hasProperty, vendors: nat := false, 0;
    var credit: Option<real> := None;
    var totals: Totals := Empty();
    NothingYet();
    assert txns[..0] == [];
    for i := 0 to |txns|
      invariant debits == Spent(txns[..i], IsDebit()) && credits == Spent(txns[..i], IsCredit())
      invariant jewellery == Spent(txns[..i], OnJewellery()) && banquets == Spent(txns[..i], OnBanquets())
      invariant property == Spent(txns[..i], OnProperty()) && forex == Spent(txns[..i], OnForex())
      invariant hasProperty == (HowMany(txns[..i], OnProperty()) > 0) && vendors == HowMany(txns[..i], OnVendors())
      invariant credit == LargestCredit(txns[..i]) && totals == CategoryTotals(txns[..i])
    {
      SpentNext(txns, i, IsDebit());
      SpentNext(txns, i, IsCredit());
      SpentNext(txns, i, OnJewellery());
      SpentNext(txns, i, OnBanquets());
      SpentNext(txns, i, OnProperty());
      SpentNext(txns, i, OnForex());
      SpentNext(txns, i, OnVendors());
      OtherNext(txns, i);
      var t := txns[i];
      if !t.debit {
        credits := credits + t.amount;
        if t.amount > 100000.0 && (credit.None? || t.amount > credit.value) {
          credit := Some(t.amount);
        }
        continue;
      }
      debits := debits + t.amount;
      totals := totals.Put(t.category, totals.Get(t.category, 0.0) + t.amount);
      if t.category == "5094" || t.Named("jeweller") || t.Named("tanishq") {
        jewellery := jewellery + t.amount;
      }
      if t.category == "7922" || t.Named("banquet") || t.Named("palace banquet") {
        banquets := banquets + t.amount;
      }
      if t.category == "6552" || t.Named("properties") || t.Named("dlf") {
        hasProperty, property := true, property + t.amount;
      }
      if t.category == "5065" || t.Named("vendor") || t.Named("supplier") {
        vendors := vendors + 1;
      }
      if t.Named("international wire") || t.Named("offshore") {
        forex := forex + t.amount;
      }
    }
    assert txns[..|txns|] == txns;
    summary := MinimalSummary(debits, credits, jewellery, banquets, property, forex, hasProperty, vendors, credit,
                              totals);
  }

  lemma NothingYet()
    ensures Spent([], IsDebit()) == Spent([], IsCredit()) == Spent([], OnJewellery()) == Spent([], OnBanquets()) == 0.0
    ensures Spent([], OnProperty()) == Spent([], OnForex()) == 0.0
    ensures HowMany([], OnProperty()) == 0 == HowMany([], OnVendors())
    ensures LargestCredit([]) == None && CategoryTotals([]) == Empty()
  {
  }

  // ---------- what the names of categories add ----------

  lemma {:induction false} FurnitureOfPut(totals: Totals, k: string, x: real, names: seq<string>)
    requires forall i, j | 0 <= i < j < |names| :: names[i] != names[j]
    ensures FurnitureTotal(totals.Put(k, x), names)
         == FurnitureTotal(totals, names) + if k in names && Furnishing(k) then x - totals.Get(k, 0.0) else 0.0
  {
    hide Furnishing;
    if names != [] {
      FurnitureOfPut(totals, k, x, names[..|names| - 1]);
      assert names == names[..|names| - 1] + [names[|names| - 1]];
    }
  }

  lemma FurnitureAppend(totals: Totals, names: seq<string>, k: string)
    ensures FurnitureTotal(totals, names + [k])
         == FurnitureTotal(totals, names) + if Furnishing(k) then totals.Get(k, 0.0) else 0.0
  {
    assert (names + [k])[..|names|] == names;
  }

  lemma FurnitureStep(totals: Totals, t: Txn)
    requires totals.Valid()
    ensures var after := WithDebit(totals, t);
            && after.Valid()
            && FurnitureTotal(after, after.order)
               == FurnitureTotal(totals, totals.order) + if OnFurnishing()(t) then t.amount else 0.0
  {
    hide FurnitureTotal;
    if t.debit {
      assert Furnishing(t.category) <==> OnFurnishing()(t);
      hide Furnishing;
      var x := totals.Get(t.category, 0.0) + t.amount;
      totals.PutValid(t.category, x);
      FurnitureOfPut(totals, t.category, x, totals.order);
      if t.category !in totals.at {
        FurnitureAppend(totals.Put(t.category, x), totals.order, t.category);
      }
    }
  }

  /** The rule's sum over category names is the spend in such categories. */
  lemma {:induction false} FurnitureIs(txns: seq<Txn>)
    ensures CategoryTotals(txns).Valid()
    ensures FurnitureTotal(CategoryTotals(txns), CategoryTotals(txns).order) == Spent(txns, OnFurnishing())
  {
    hide FurnitureTotal, WithDebit, Furnishing, Dict.Valid;
    if txns == [] {
      NoTotals();
    } else {
      FurnitureIs(txns[..|txns| - 1]);
      FurnitureStep(CategoryTotals(txns[..|txns| - 1]), txns[|txns| - 1]);
    }
  }

  lemma NoTotals()
    ensures CategoryTotals([]).Valid() && FurnitureTotal(CategoryTotals([]), []) == 0.0
  {
  }

  /** The scan's largest credit: the largest above 100,000. */
  lemma {:induction false} LargestCreditIs(txns: seq<Txn>)
    ensures LargestCredit(txns).None? <==> forall t | t in txns && !t.debit :: t.amount <= 100000.0
    ensures LargestCredit(txns).Some? ==>
              && (exists t :: t in txns && !t.debit && t.amount == LargestCredit(txns).value > 100000.0)
              && forall t | t in txns && !t.debit :: t.amount <= LargestCredit(txns).value
  {
    if txns != [] {
      var before, last := txns[..|txns| - 1], txns[|txns| - 1];
      LargestCreditIs(before);
      assert txns == before + [last];
      assert last in txns;
      if LargestCredit(before).Some? && LargestCredit(txns) == LargestCredit(before) {
        var t :| t in before && !t.debit && t.amount == LargestCredit(before).value;
        assert t in txns;
      }
    }
  }

  /** The letter, or its capital. */
  predicate SameLetter(c: char, lower: char) { c == lower || ('A' <= c <= 'Z' && c as int + 32 == lower as int) }

  predicate SpeltAt(text: string, word: string, i: int) {
    0 <= i && i + |word| <= |text| && forall k | 0 <= k < |word| :: SameLetter(text[i + k], word[k])
  }

  /** The word stands in the text, in whatever case. */
  ghost predicate Says(text: string, word: string) { exists i :: SpeltAt(text, word, i) }

  predicate StandsAt(s: string, t: string, i: int) { 0 <= i && i + |t| <= |s| && s[i..i + |t|] == t }

  ghost predicate LowerCase(word: string) { forall k | 0 <= k < |word| :: !('A' <= word[k] <= 'Z') }

  lemma {:induction false} LowerIs(s: string)
    ensures |Lower(s)| == |s|
    ensures forall k | 0 <= k < |s| :: Lower(s)[k] == if 'A' <= s[k] <= 'Z' then (s[k] as int + 32) as char else s[k]
  {
    if s != [] { LowerIs(s[1..]); }
  }

  lemma {:induction false} OccursAt(s: string, t: string)
    ensures Occurs(s, t) <==> exists i :: StandsAt(s, t, i)
  {
    if StartsWith(s, t) {
      assert StandsAt(s, t, 0);
    } else if s == [] {
      forall i ensures !StandsAt(s, t, i) { NotAtStart(s, t, i); }
    } else {
      OccursAt(s[1..], t);
      forall i | StandsAt(s, t, i) ensures StandsAt(s[1..], t, i - 1) {
        NotAtStart(s, t, i);
        assert s[1..][i - 1..i - 1 + |t|] == s[i..i + |t|];
      }
      forall i | StandsAt(s[1..], t, i) ensures StandsAt(s, t, i + 1) {
        assert s[1..][i..i + |t|] == s[i + 1..i + 1 + |t|];
      }
    }
  }

  lemma NotAtStart(s: string, t: string, i: int)
    requires !StartsWith(s, t)
    ensures StandsAt(s, t, i) ==> i > 0
  {
  }

  /** A merchant is recognised by a word in its name, in whatever case. */
  lemma NamedExactly(t: Txn, word: string)
    requires LowerCase(word)
    ensures t.Named(word) <==> Says(t.merchant, word)
  {
    SaysExactly(t.merchant, word);
  }

  /** What each signal of the scan counts: a stored code, or a word in the name. */
  lemma SignalsAre(t: Txn)
    ensures IsDebit()(t) <==> t.debit
    ensures IsCredit()(t) <==> !t.debit
    ensures OnJewellery()(t) <==>
              t.debit && (t.category == "5094" || Says(t.merchant, "jeweller") || Says(t.merchant, "tanishq"))
    ensures OnBanquets()(t) <==> t.debit && (t.category == "7922" || Says(t.merchant, "banquet"))
    ensures OnProperty()(t) <==>
              t.debit && (t.category == "6552" || Says(t.merchant, "properties") || Says(t.merchant, "dlf"))
    ensures OnVendors()(t) <==>
              t.debit && (t.category == "5065" || Says(t.merchant, "vendor") || Says(t.merchant, "supplier"))
    ensures OnForex()(t) <==> t.debit && (Says(t.merchant, "international wire") || Says(t.merchant, "offshore"))
  {
    hide Says, Occurs, Lower, Txn.Named, LowerCase;
    AreLowerCase();
    NamedExactly(t, "jeweller");
    NamedExactly(t, "tanishq");
    NamedExactly(t, "banquet");
    NamedExactly(t, "properties");
    NamedExactly(t, "dlf");
    NamedExactly(t, "vendor");
    NamedExactly(t, "supplier");
    NamedExactly(t, "international wire");
    NamedExactly(t, "offshore");
    SaysPart(t.merchant, "palace ", "banquet");
    NamedExactly(t, "palace banquet");
    assert "palace " + "banquet" == "palace banquet";
  }

  lemma AreLowerCase()
    ensures LowerCase("jeweller") && LowerCase("tanishq") && LowerCase("banquet") && LowerCase("palace banquet")
    ensures LowerCase("properties") && LowerCase("dlf") && LowerCase("vendor") && LowerCase("supplier")
    ensures LowerCase("international wire") && LowerCase("offshore")
  {
  }

  lemma SaysPart(text: string, a: string, b: string)
    ensures Says(text, a + b) ==> Says(text, b)
  {
    if Says(text, a + b) {
      var i :| SpeltAt(text, a + b, i);
      forall k | 0 <= k < |b| ensures SameLetter(text[i + |a| + k], b[k]) {
        assert (a + b)[|a| + k] == b[k];
      }
      assert SpeltAt(text, b, i + |a|);
    }
  }

  lemma SaysExactly(text: string, word: string)
    requires LowerCase(word)
    ensures Occurs(Lower(text), word) <==> Says(text, word)
  {
    OccursAt(Lower(text), word);
    forall i ensures StandsAt(Lower(text), word, i) <==> SpeltAt(text, word, i) { LettersAgree(text, word, i); }
  }

  lemma LettersAgree(text: string, word: string, i: int)
    requires LowerCase(word)
    ensures StandsAt(Lower(text), word, i) <==> SpeltAt(text, word, i)
  {
    LowerIs(text);
    if 0 <= i && i + |word| <= |text| {
      var part := Lower(text)[i..i + |word|];
      forall k | 0 <= k < |word| ensures part[k] == word[k] <==> SameLetter(text[i + k], word[k]) {
        assert part[k] == Lower(text)[i + k];
      }
    }
  }

  /** What the rules read off the names of the categories. */
  lemma ExtrasAre(txns: seq<Txn>)
    ensures var extras := SummaryOf(txns).extras;
            && extras.furniture == Spent(txns, OnFurnishing())
            && (extras.visa <==> exists t | t in txns :: t.debit && Says(t.category, "visa"))
            && extras.gstGrowth == None
  {
    hide Spent, FurnitureTotal, Furnishing, CategoryTotals, Says;
    FurnitureIs(txns);
    CategoriesAre(txns);
    forall t | t in txns ensures VisaFee(t.category) <==> Says(t.category, "visa") { SaysExactly(t.category, "visa"); }
  }

  lemma {:induction false} CategoriesAre(txns: seq<Txn>)
    ensures forall name :: name in CategoryTotals(txns).order <==> exists t | t in txns :: t.debit && t.category == name
  {
    if txns != [] {
      CategoriesAre(txns[..|txns| - 1]);
      FurnitureIs(txns[..|txns| - 1]);
      assert txns == txns[..|txns| - 1] + [txns[|txns| - 1]];
    }
  }

  const HIGH_CONFIDENCE := 0.80

  predicate Storable(d: Detected) { d.confidence >= HIGH_CONFIDENCE }

  /** Detected in the scan's summary, with enough confidence to be stored. */
  predicate Seen(txns: seq<Txn>, k: Kind) {
    Detection(k, SummaryOf(txns)).Some? && Storable(Detected(k, Detection(k, SummaryOf(txns)).value))
  }

  /** Of the eight kinds a scan can store three: a wedding when both of its
      spending signals are there, a home purchase when a property payment comes
      with spend in a category named after furniture or interiors, and wealth
      migration. A category named after visas lifts no kind over the threshold. */
  lemma ScanSeesExactly(txns: seq<Txn>, k: Kind)
    ensures Seen(txns, k) <==> match k
                               case Wedding => Spent(txns, OnJewellery()) >= 25000.0
                                   && Spent(txns, OnBanquets()) >= 15000.0
                               case HomePurchase => HowMany(txns, OnProperty()) > 0
                                   && Spent(txns, OnFurnishing()) > 5000.0
                               case WealthMigration => Spent(txns, OnForex()) >= 200000.0
                               case _ => false
  {
    hide Spent, HowMany, LargestCredit, CategoryTotals, FurnitureTotal, Furnishing, VisaFee;
    FurnitureIs(txns);
    var s := SummaryOf(txns);
    assert Spend(s, T.Jewellery) == Spent(txns, OnJewellery());
    assert Spend(s, T.EventsEntertainment) == Spent(txns, OnBanquets());
    assert Spend(s, T.International) == Spent(txns, OnForex());
    assert Spend(s, T.EducationTesting) == 0.0;
  }

  /** With which confidence an event is stored. */
  lemma StoredConfidence(txns: seq<Txn>, k: Kind)
    requires Seen(txns, k)
    ensures Detection(k, SummaryOf(txns)).value
         == match k
            case Wedding => 1.0
            case HomePurchase => 0.9
            case WealthMigration => if Spent(txns, OnForex()) >= 1000000.0 then 1.0 else 0.8
            case _ => 0.0
  {
    hide Spent, HowMany, LargestCredit, CategoryTotals, FurnitureTotal, Furnishing, VisaFee;
    ScanSeesExactly(txns, k);
    FurnitureIs(txns);
    var s := SummaryOf(txns);
    assert Spend(s, T.Jewellery) == Spent(txns, OnJewellery());
    assert Spend(s, T.EventsEntertainment) == Spent(txns, OnBanquets());
    assert Spend(s, T.International) == Spent(txns, OnForex());
  }

  // ---------- stored events ----------

  datatype Stored = Stored(customer: string, kind: Kind, confidence: real)

  predicate Has(events: seq<Stored>, customer: string, kind: Kind) {
    exists e | e in events :: e.customer == customer && e.kind == kind
  }

  function Store(events: seq<Stored>, customer: string, d: Detected): seq<Stored> {
    if !Storable(d) || Has(events, customer, d.kind) then events
    else events + [Stored(customer, d.kind, d.confidence)]
  }

  function StoreAll(events: seq<Stored>, customer: string, detected: seq<Detected>): seq<Stored> {
    if detected == [] then events
    else Store(StoreAll(events, customer, detected[..|detected| - 1]), customer, detected[|detected| - 1])
  }

  /** One customer looked at by a scan, with the transactions it reads. The visit
      raises once `reached` detected events have been dealt with, if there is
      such a number; the scan then goes on with the next customer. */
  datatype Visit = Visit(customer: string, txns: seq<Txn>, reached: Option<nat>)

  function UpTo(detected: seq<Detected>, reached: Option<nat>): seq<Detected> {
    if reached.Some? && reached.value <= |detected| then detected[..reached.value] else detected
  }

  /** The detected events the visit deals with. */
  function Handled(v: Visit): seq<Detected> { UpTo(Detections(RULES, SummaryOf(v.txns)), v.reached) }

  /** A visit that raises has dealt with the first events it detected, as many as it
      reached; any other with all of them. */
  lemma HandledIs(v: Visit)
    ensures var all := Detections(RULES, SummaryOf(v.txns));
            && Handled(v) <= all
            && |Handled(v)| == if v.reached.Some? && v.reached.value < |all| then v.reached.value else |all|
  {
  }

  function AfterVisit(events: seq<Stored>, v: Visit): seq<Stored> { StoreAll(events, v.customer, Handled(v)) }

  function AfterVisits(events: seq<Stored>, visits: seq<Visit>): seq<Stored> {
    if visits == [] then events
    else AfterVisit(AfterVisits(events, visits[..|visits| - 1]), visits[|visits| - 1])
  }

  class Scanner {
    var events: seq<Stored>

    constructor ()
      ensures events == []
    {
      events := [];
    }

    /** The loop of `_process_customer` over the detected events. */
    method StoreDetected(customer: string, detected: seq<Detected>) returns (count: nat)
      modifies this
      ensures events == StoreAll(old(events), customer, detected) && |events| == |old(events)| + count
    {
      count := 0;
      for i := 0 to |detected|
        invariant events == StoreAll(old(events), customer, detected[..i]) && |events| == |old(events)| + count
      {
        assert detected[..i + 1][..i] == detected[..i];
        var d := detected[i];
        if d.confidence < HIGH_CONFIDENCE {
          continue;
        }
        if Has(events, customer, d.kind) {
          continue;
        }
        events := events + [Stored(customer, d.kind, d.confidence)];
        count := count + 1;
      }
      assert detected[..|detected|] == detected;
    }

    /** `count` leaves out what a visit stored before it raised. */
    method Scan(visits: seq<Visit>) returns (count: nat)
      modifies this
      ensures events == AfterVisits(old(events), visits)
      ensures |events| >= |old(events)| + count
      ensures (forall v | v in visits :: v.reached.None?) ==> |events| == |old(events)| + count
    {
      count := 0;
      for i := 0 to |visits|
        invariant events == AfterVisits(old(events), visits[..i])
        invariant |events| >= |old(events)| + count
        invariant (forall v | v in visits :: v.reached.None?) ==> |events| == |old(events)| + count
      {
        assert visits[..i + 1][..i] == visits[..i];
        var v := visits[i];
        var summary := BuildMinimalSummary(v.txns);
        var detected, _ := Execute(Some(summary));
        var n := StoreDetected(v.customer, UpTo(detected, v.reached));
        if v.reached.None? {
          count := count + n;
        }
      }
      assert visits[..|visits|] == visits;
    }
  }

  ghost predicate Unique(events: seq<Stored>) {
    forall i, j | 0 <= i < j < |events| :: events[i].customer != events[j].customer || events[i].kind != events[j].kind
  }

  lemma StoreUnique(events: seq<Stored>, customer: string, d: Detected)
    requires Unique(events)
    ensures Unique(Store(events, customer, d))
    ensures forall c, k :: Has(Store(events, customer, d), c, k)
              <==> Has(events, c, k) || (c == customer && k == d.kind && Storable(d))
  {
    var after := Store(events, customer, d);
    if after != events {
      assert after[|events|] in after;
      assert forall e :: e in after <==> e in events || e == Stored(customer, d.kind, d.confidence);
    }
  }

  lemma {:induction false} StoreAllHas(events: seq<Stored>, customer: string, detected: seq<Detected>, c: string,
                                       k: Kind)
    requires Unique(events)
    ensures Unique(StoreAll(events, customer, detected))
    ensures Has(StoreAll(events, customer, detected), c, k)
            <==> Has(events, c, k) || (c == customer && exists d | d in detected :: d.kind == k && Storable(d))
  {
    hide Has, Unique;
    if detected != [] {
      StoreAllHas(events, customer, detected[..|detected| - 1], c, k);
      StoreUnique(StoreAll(events, customer, detected[..|detected| - 1]), customer, detected[|detected| - 1]);
      assert detected == detected[..|detected| - 1] + [detected[|detected| - 1]];
    }
  }

  lemma SeenIsDetected(txns: seq<Txn>, k: Kind)
    ensures Seen(txns, k) <==> exists d | d in Detections(RULES, SummaryOf(txns)) :: d.kind == k && Storable(d)
  {
    hide SummaryOf, Detection, Detections, Storable;
    var s := SummaryOf(txns);
    EveryKindHasARule(k);
    if Seen(txns, k) {
      DetectionsAre(RULES, s, Detected(k, Detection(k, s).value));
    }
    forall d | d in Detections(RULES, s) && d.kind == k && Storable(d) ensures Seen(txns, k) {
      DetectionsAre(RULES, s, d);
    }
  }

  /** Some confident event of the kind is among those the visit deals with. */
  ghost predicate SeenBy(v: Visit, k: Kind) { exists d | d in Handled(v) :: d.kind == k && Storable(d) }

  /** A visit that does not raise deals with everything it detects. */
  lemma SeenIfCompleted(v: Visit, k: Kind)
    ensures SeenBy(v, k) ==> Seen(v.txns, k)
    ensures v.reached.None? ==> (SeenBy(v, k) <==> Seen(v.txns, k))
  {
    hide Seen, SummaryOf, Detections, Storable;
    SeenIsDetected(v.txns, k);
    assert forall d | d in Handled(v) :: d in Detections(RULES, SummaryOf(v.txns));
  }

  lemma VisitStores(events: seq<Stored>, v: Visit, c: string, k: Kind)
    requires Unique(events)
    ensures Unique(AfterVisit(events, v))
    ensures Has(AfterVisit(events, v), c, k) <==> Has(events, c, k) || (c == v.customer && SeenBy(v, k))
  {
    hide Has, Unique, Handled;
    StoreAllHas(events, v.customer, Handled(v), c, k);
  }

  ghost predicate SeenIn(visits: seq<Visit>, c: string, k: Kind) {
    exists v | v in visits :: v.customer == c && SeenBy(v, k)
  }

  /** Over any sequential run of scans at most one event per customer and kind is
      stored, and exactly the kinds some scan saw are. */
  lemma {:induction false} StoredExactly(visits: seq<Visit>, c: string, k: Kind)
    ensures Unique(AfterVisits([], visits))
    ensures Has(AfterVisits([], visits), c, k) <==> SeenIn(visits, c, k)
  {
    hide Has, Unique, SeenBy, AfterVisit;
    if visits == [] {
      EmptyStore(c, k);
    } else {
      StoredExactly(visits[..|visits| - 1], c, k);
      VisitStores(AfterVisits([], visits[..|visits| - 1]), visits[|visits| - 1], c, k);
      assert visits == visits[..|visits| - 1] + [visits[|visits| - 1]];
    }
  }

  lemma EmptyStore(c: string, k: Kind)
    ensures Unique([]) && !Has([], c, k)
  {
  }

  lemma {:induction false} StoreAllNothing(events: seq<Stored>, customer: string, detected: seq<Detected>)
    requires forall d | d in detected && Storable(d) :: Has(events, customer, d.kind)
    ensures StoreAll(events, customer, detected) == events
  {
    if detected != [] {
      StoreAllNothing(events, customer, detected[..|detected| - 1]);
    }
  }

  /** Whatever other customers were scanned in between, in whichever scans:
      looking again at a customer whose transactions have not changed, or at any
      of their earlier transactions, stores nothing. */
  lemma RescanStoresNothing(before: seq<Visit>, again: Visit)
    requires exists v | v in before ::
               v.customer == again.customer && v.reached.None? && forall k | Seen(again.txns, k) :: Seen(v.txns, k)
    ensures AfterVisit(AfterVisits([], before), again) == AfterVisits([], before)
  {
    hide Has, Unique, Seen, SeenBy, AfterVisits, Handled, Storable;
    var events := AfterVisits([], before);
    forall d | d in Handled(again) && Storable(d) ensures Has(events, again.customer, d.kind) {
      assert SeenBy(again, d.kind) by { ItIsSeen(again, d); }
      SeenIfCompleted(again, d.kind);
      forall v | v in before ensures v.reached.None? && Seen(v.txns, d.kind) ==> SeenBy(v, d.kind) {
        SeenIfCompleted(v, d.kind);
      }
      StoredExactly(before, again.customer, d.kind);
    }
    StoreAllNothing(events, again.customer, Handled(again));
  }

  lemma ItIsSeen(v: Visit, d: Detected)
    requires d in Handled(v) && Storable(d)
    ensures SeenBy(v, d.kind)
  {
  }

  // ---------- overlapping scans ----------

  /** `looked`: events found missing by a scan that has yet to insert them. */
  datatype Table = Table(events: seq<Stored>, looked: map<nat, Stored>)

  datatype Access =
    | Look(scan: nat, customer: string, d: Detected)
    | Insert(scan: nat)

  function Next(t: Table, a: Access): Table {
    match a
    case Look(n, customer, d) =>
      if n in t.looked || !Storable(d) || Has(t.events, customer, d.kind) then t
      else t.(looked := t.looked[n := Stored(customer, d.kind, d.confidence)])
    case Insert(n) =>
      if n !in t.looked then t else Table(t.events + [t.looked[n]], t.looked - {n})
  }

  function Accesses(t: Table, accesses: seq<Access>): Table
    decreases |accesses|
  {
    if accesses == [] then t else Accesses(Next(t, accesses[0]), accesses[1..])
  }

  ghost predicate ScansBelow(accesses: seq<Access>, n: nat) {
    forall a | a in accesses && a.Look? :: a.scan < n
  }

  /** With one scan: what it found missing is still missing. */
  ghost predicate Inv(t: Table) {
    && Unique(t.events)
    && forall n | n in t.looked :: n == 0 && !Has(t.events, t.looked[n].customer, t.looked[n].kind)
  }

  lemma {:induction false} AccessesKeep(t: Table, accesses: seq<Access>)
    requires Inv(t) && ScansBelow(accesses, 1)
    ensures Inv(Accesses(t, accesses))
    decreases |accesses|
  {
    if accesses != [] {
      var a := accesses[0];
      assert a in accesses;
      if a.Insert? && a.scan in t.looked {
        var e := t.looked[a.scan];
        StoreUnique(t.events, e.customer, Detected(e.kind, HIGH_CONFIDENCE));
        assert forall x | x in t.events :: x.customer != e.customer || x.kind != e.kind;
        assert t.looked.Keys == {a.scan};
      }
      AccessesKeep(Next(t, a), accesses[1..]);
    }
  }

  /** The table has no unique constraint: at most one event per customer and kind
      is stored, in every run, exactly when scans do not overlap. */
  lemma UniqueIffSerial(n: nat)
    ensures n <= 1 <==> forall accesses | ScansBelow(accesses, n) :: Unique(Accesses(Table([], map[]), accesses).events)
  {
    if n <= 1 {
      forall accesses | ScansBelow(accesses, n) ensures Unique(Accesses(Table([], map[]), accesses).events) {
        AccessesKeep(Table([], map[]), accesses);
      }
    } else {
      var accesses := StoredTwice();
      assert ScansBelow(accesses, n);
    }
  }

  lemma StoredTwice() returns (accesses: seq<Access>)
    ensures ScansBelow(accesses, 2) && !Unique(Accesses(Table([], map[]), accesses).events)
  {
    hide Accesses;
    var d, e := Detected(Wedding, 1.0), Stored("c", Wedding, 1.0);
    accesses := [Look(0, "c", d), Look(1, "c", d), Insert(0), Insert(1)];
    FourAccesses(Table([], map[]), accesses);
    var t2 := Next(Next(Table([], map[]), accesses[0]), accesses[1]);
    assert t2 == Table([], map[0 := e, 1 := e]);
    var t3 := Next(t2, accesses[2]);
    assert t3 == Table([e], map[1 := e]);
    var events := Next(t3, accesses[3]).events;
    assert events == [e, e] && events[0] == events[1];
  }

  lemma FourAccesses(t: Table, a: seq<Access>)
    requires |a| == 4
    ensures Accesses(t, a) == Next(Next(Next(Next(t, a[0]), a[1]), a[2]), a[3])
  {
    hide Next;
    var t1 := Next(t, a[0]);
    var t2 := Next(t1, a[1]);
    assert a[1..][1..] == a[2..] && a[2..][1..] == a[3..] && a[3..][1..] == [];
    assert Accesses(t, a) == Accesses(t1, a[1..]) == Accesses(t2, a[2..]);
    assert Accesses(t2, a[2..]) == Accesses(Next(t2, a[2]), a[3..]);
    assert Accesses(Next(t2, a[2]), a[3..]) == Accesses(Next(Next(t2, a[2]), a[3]), []);
  }

  // ---------- coverage ----------

  const WINDOW := 20.0

  /** A transaction is dated `dated` and can be read from `visible` on; minutes. */
  datatype Row = Row(dated: real, visible: real)

  predicate Selects(scan: real, row: Row) { row.visible <= scan && row.dated >= scan - WINDOW }

  ghost predicate Schedule(scans: seq<real>, gap: real) {
    forall i | 0 < i < |scans| :: scans[i - 1] <= scans[i] <= scans[i - 1] + gap
  }

  /** Scanning was going on when the row became visible, and went on after. */
  ghost predicate During(scans: seq<real>, row: Row) {
    scans != [] && scans[0] <= row.visible <= scans[|scans| - 1]
  }

  ghost predicate SelectedBySome(scans: seq<real>, row: Row) {
    exists i | 0 <= i < |scans| :: Selects(scans[i], row)
  }

  lemma FirstScanSelects(scans: seq<real>, gap: real, row: Row, delay: real)
    requires Schedule(scans, gap) && During(scans, row)
    requires row.visible <= row.dated + delay && gap + delay <= WINDOW && gap > 0.0
    ensures SelectedBySome(scans, row)
  {
    var i := 0;
    while scans[i] < row.visible
      invariant i < |scans|
      invariant i > 0 ==> scans[i - 1] < row.visible
      decreases |scans| - i
    {
      i := i + 1;
    }
    assert Selects(scans[i], row);
  }

  /** Every transaction is selected by some scan, for every schedule and every
      row, exactly when the longest gap and the longest delay together fit the
      window. */
  lemma CoverageIffFits(gap: real, delay: real)
    requires gap > 0.0 && delay >= 0.0
    ensures gap + delay <= 20.0 <==>
            forall scans, row | Schedule(scans, gap) && During(scans, row) && row.visible <= row.dated + delay ::
              SelectedBySome(scans, row)
  {
    if gap + delay <= WINDOW {
      forall scans, row | Schedule(scans, gap) && During(scans, row) && row.visible <= row.dated + delay
        ensures SelectedBySome(scans, row)
      {
        FirstScanSelects(scans, gap, row, delay);
      }
    } else {
      MissedRow(gap, delay);
    }
  }

  /** Visible just after one scan, too old at the next. */
  lemma MissedRow(gap: real, delay: real)
    requires gap > 0.0 && delay >= 0.0 && gap + delay > WINDOW
    ensures exists scans, row :: Schedule(scans, gap) && During(scans, row) && row.visible <= row.dated + delay
                                 && !SelectedBySome(scans, row)
  {
    var excess := gap + delay - WINDOW;
    var late := if excess / 2.0 < gap then excess / 2.0 else gap / 2.0;
    var row, scans := Row(late - delay, late), [0.0, gap];
    assert Schedule(scans, gap) && During(scans, row);
    assert !Selects(scans[0], row) && !Selects(scans[1], row);
  }
}
