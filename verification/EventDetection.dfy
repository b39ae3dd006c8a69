/** The eight detection rules over a transaction summary. */
module EventDetection {
  import opened Options
  import opened OrderedDict
  import opened Rounding
  import opened TransactionIntel

  datatype Kind =
    | Wedding | HomePurchase | ForeignEducation | Promotion
    | BusinessExpansion | Medical | RetirementPlanning | WealthMigration

  datatype Detected = Detected(kind: Kind, confidence: real)

  // ---------- the rules ----------

  function Spend(s: Summary, c: Category): real { s.amounts.Get(c, 0.0) }

  function Weighted(signal: bool, weight: real): real { if signal then weight else 0.0 }

  function AtMostOne(x: real): real { if x < 1.0 then x else 1.0 }

  function CreditAbove(s: Summary, x: real): bool { s.largestCredit.Some? && s.largestCredit.value > x }

  function WeddingRule(s: Summary): Option<real> {
    var n := Weighted(Spend(s, Category.Jewellery) >= 25000.0, 1.0)
        + Weighted(Spend(s, EventsEntertainment) >= 15000.0, 1.0)
             + Weighted(CreditAbove(s, 100000.0), 0.5);
    if n < 1.0 then None else Some(AtMostOne(n / 2.0))
  }

  function HomePurchaseRule(s: Summary): Option<real> {
    if !s.hasProperty then None
    else if s.extras.furniture > 5000.0 then Some(AtMostOne(0.7 + 0.2))
    else Some(0.7)
  }

  function ForeignEducationRule(s: Summary): Option<real> {
    var n := Weighted(Spend(s, EducationTesting) > 0.0, 1.0) + Weighted(Spend(s, International) > 50000.0, 1.0)
             + Weighted(s.extras.visa, 0.5);
    if n < 1.0 then None else Some(AtMostOne(n / 2.0))
  }

  /** The best credits of the last two months that had one above 10,000. */
  function LastTwo(s: Summary): Option<(real, real)> {
    var order := s.monthly.order;
    if |order| < 2 then None
    else Some((s.monthly.Get(order[|order| - 2], 0.0), s.monthly.Get(order[|order| - 1], 0.0)))
  }

  /** Percent, to two decimals. */
  function Growth(before: real, last: real): real {
    Rounded(if before > 0.0 then (last - before) / before * 100.0 else 0.0, 100)
  }

  function Increases(s: Summary): nat {
    if LastTwo(s).Some? && LastTwo(s).value.1 > LastTwo(s).value.0 * 1.20 then 1 else 0
  }

  function PromotionRule(s: Summary): Option<real> {
    var two := LastTwo(s);
    var n := Weighted(Increases(s) >= 2, 1.0)
             + Weighted(CreditAbove(s, 100000.0) && two.Some? && Growth(two.value.0, two.value.1) > 10.0, 1.0);
    if n == 0.0 then None else Some(AtMostOne(0.5 + n * 0.25))
  }

  function BusinessExpansionRule(s: Summary): Option<real> {
    var growth := s.extras.gstGrowth;
    var n := Weighted(Spend(s, GstTax) > 0.0 && growth.Some? && growth.value > 0.30, 1.0)
             + Weighted(s.counts.Get(VendorPayments, 0) > 5, 1.0);
    if n == 0.0 then None else Some(AtMostOne(n * 0.5 + 0.2))
  }

  function MedicalRule(s: Summary): Option<real> {
    if s.hospitalMax.None? || s.hospitalMax.value < 50000.0 then None
    else Some(AtMostOne(0.5 + s.hospitalMax.value / 200000.0 * 0.5))
  }

  /** Of the credits, to three decimals; nothing without credits. */
  function SavingsRate(s: Summary): real {
    if s.credits > 0.0 then Rounded((s.credits - s.debits) / s.credits, 1000) else 0.0
  }

  function RetirementRule(s: Summary): Option<real> {
    if !s.investor || SavingsRate(s) < 0.20 then None
    else Some(0.5 + if SavingsRate(s) < 0.4 then SavingsRate(s) else 0.4)
  }

  function WealthMigrationRule(s: Summary): Option<real> {
    if Spend(s, International) < 200000.0 then None
    else Some(if Spend(s, International) >= 1000000.0 then 1.0 else 0.8)
  }

  function Evaluate(k: Kind, s: Summary): Option<real> {
    match k
    case Wedding => WeddingRule(s)
    case HomePurchase => HomePurchaseRule(s)
    case ForeignEducation => ForeignEducationRule(s)
    case Promotion => PromotionRule(s)
    case BusinessExpansion => BusinessExpansionRule(s)
    case Medical => MedicalRule(s)
    case RetirementPlanning => RetirementRule(s)
    case WealthMigration => WealthMigrationRule(s)
  }

  function Least(k: Kind): real {
    match k
    case Wedding => 0.40
    case HomePurchase => 0.60
    case ForeignEducation => 0.50
    case Promotion => 0.50
    case BusinessExpansion => 0.45
    case Medical => 0.70
    case RetirementPlanning => 0.45
    case WealthMigration => 0.70
  }

  /** What the agent reports of one kind. */
  function Detection(k: Kind, s: Summary): Option<real> {
    var c := Evaluate(k, s);
    if c.None? || c.value < Least(k) then None else Some(Rounded(c.value, 1000))
  }

  const RULES: seq<Kind> :=
    [Wedding, HomePurchase, ForeignEducation, Promotion, BusinessExpansion, Kind.Medical, RetirementPlanning,
     WealthMigration]

  function Detections(kinds: seq<Kind>, s: Summary): seq<Detected> {
    if kinds == [] then []
    else
      Detections(kinds[..|kinds| - 1], s)
      + match Detection(kinds[|kinds| - 1], s) case None => [] case Some(c) => [Detected(kinds[|kinds| - 1], c)]
  }

  /** `execute`: the loop over the registered rules. */
  method Execute(summary: Option<Summary>) returns (detected: seq<Detected>, shouldSkip: bool)
    ensures detected == match summary case None => [] case Some(s) => Detections(RULES, s)
    ensures shouldSkip <==> detected == []
  {
    detected := [];
    if summary.None? {
      return [], true;
    }
    var s := summary.value;
    for i := 0 to |RULES|
      invariant detected == Detections(RULES[..i], s)
    {
      assert RULES[..i + 1][..i] == RULES[..i];
      var rule := RULES[i];
      var confidence := Evaluate(rule, s);
      if confidence.Some? && confidence.value >= Least(rule) {
        detected := detected + [Detected(rule, Rounded(confidence.value, 1000))];
      }
    }
    assert RULES[..|RULES|] == RULES;
    shouldSkip := detected == [];
  }

  lemma {:induction false} DetectionsAre(kinds: seq<Kind>, s: Summary, d: Detected)
    ensures d in Detections(kinds, s) <==> d.kind in kinds && Detection(d.kind, s) == Some(d.confidence)
  {
    if kinds != [] {
      DetectionsAre(kinds[..|kinds| - 1], s, d);
      assert kinds == kinds[..|kinds| - 1] + [kinds[|kinds| - 1]];
    }
  }

  lemma EveryKindHasARule(k: Kind)
    ensures k in RULES
  {
    match k
    case Wedding => assert RULES[0] == k;
    case HomePurchase => assert RULES[1] == k;
    case ForeignEducation => assert RULES[2] == k;
    case Promotion => assert RULES[3] == k;
    case BusinessExpansion => assert RULES[4] == k;
    case Medical => assert RULES[5] == k;
    case RetirementPlanning => assert RULES[6] == k;
    case WealthMigration => assert RULES[7] == k;
  }

  // ---------- what the rules depend on ----------

  ghost predicate AtMost(a: Option<real>, b: Option<real>) { a.Some? ==> b.Some? && a.value <= b.value }

  /** Of everything the monotone rules look at, `t` has at least as much as `s`. */
  ghost predicate Dominates(s: Summary, t: Summary) {
    && (forall c :: 0.0 <= Spend(s, c) <= Spend(t, c))
    && s.counts.Get(VendorPayments, 0) <= t.counts.Get(VendorPayments, 0)
    && AtMost(s.largestCredit, t.largestCredit) && AtMost(s.hospitalMax, t.hospitalMax)
    && (s.hasProperty ==> t.hasProperty)
    && s.extras.furniture <= t.extras.furniture && (s.extras.visa ==> t.extras.visa)
    && AtMost(s.extras.gstGrowth, t.extras.gstGrowth)
  }

  predicate Monotone(k: Kind) { k != Promotion && k != RetirementPlanning }

  lemma EvaluationGrows(k: Kind, s: Summary, t: Summary)
    requires Monotone(k) && Dominates(s, t)
    ensures AtMost(Evaluate(k, s), Evaluate(k, t))
  {
    hide Spend;
    assert 0.0 <= Spend(s, RealEstate) <= Spend(t, RealEstate);
    assert Spend(s, International) <= Spend(t, International);
    assert Spend(s, EducationTesting) <= Spend(t, EducationTesting);
    assert Spend(s, GstTax) <= Spend(t, GstTax);
  }

  lemma DetectionGrows(k: Kind, s: Summary, t: Summary)
    requires Monotone(k) && Dominates(s, t)
    ensures AtMost(Detection(k, s), Detection(k, t))
  {
    hide Evaluate, Rounded;
    EvaluationGrows(k, s, t);
    if Detection(k, s).Some? {
      RoundedMonotone(Evaluate(k, s).value, Evaluate(k, t).value, 1000);
    }
  }

  // ---------- summaries of more transactions ----------

  lemma SpendGrows(xs: seq<Txn>, ys: seq<Txn>, c: Category)
    requires multiset(xs) <= multiset(ys) && NonNegative(ys)
    ensures 0.0 <= Spend(Summarise(xs), c) <= Spend(Summarise(ys), c)
    ensures Summarise(xs).counts.Get(c, 0) <= Summarise(ys).counts.Get(c, 0)
  {
    hide Summarise;
    SummaryIsSums(xs, c);
    SummaryIsSums(ys, c);
    SumGrows(xs, ys, SpendIn(c));
    SumGrows(xs, ys, OneIn(c));
    NonNegativeSubset(xs, ys);
    SumNonNegative(xs, SpendIn(c));
  }

  lemma NonNegativeSubset(xs: seq<Txn>, ys: seq<Txn>)
    requires multiset(xs) <= multiset(ys) && NonNegative(ys)
    ensures NonNegative(xs)
  {
    forall t | t in xs ensures t.amount >= 0.0 {
      assert t in multiset(xs) && t in multiset(ys);
      assert t in ys;
    }
  }

  lemma MaximaGrow(xs: seq<Txn>, ys: seq<Txn>)
    requires multiset(xs) <= multiset(ys)
    ensures AtMost(Summarise(xs).largestCredit, Summarise(ys).largestCredit)
    ensures AtMost(Summarise(xs).hospitalMax, Summarise(ys).hospitalMax)
  {
    hide Summarise, Exceeds;
    var s := Summarise(xs);
    if s.largestCredit.Some? {
      LargestCreditIs(xs, s.largestCredit.value);
      ExceedsGrows(xs, ys, BigCredit(), s.largestCredit.value);
      LargestCreditIs(ys, s.largestCredit.value);
    }
    if s.hospitalMax.Some? {
      HospitalMaxIs(xs, s.hospitalMax.value);
      ExceedsGrows(xs, ys, Hospital(), s.hospitalMax.value);
      HospitalMaxIs(ys, s.hospitalMax.value);
    }
  }

  lemma SummaryGrows(xs: seq<Txn>, ys: seq<Txn>)
    requires multiset(xs) <= multiset(ys) && NonNegative(ys)
    ensures Dominates(Summarise(xs), Summarise(ys))
  {
    hide Summarise, Spend, Dict.Get;
    DerivedFlags(xs);
    DerivedFlags(ys);
    PropertyIs(xs);
    PropertyIs(ys);
    MaximaGrow(xs, ys);
    SpendGrows(xs, ys, VendorPayments);
    forall c ensures 0.0 <= Spend(Summarise(xs), c) <= Spend(Summarise(ys), c) {
      SpendGrows(xs, ys, c);
    }
  }

  /** Adding transactions of non-negative amount, anywhere in the order, never
      removes or lowers a detection other than promotion and retirement. */
  lemma DetectionIsMonotone(xs: seq<Txn>, ys: seq<Txn>, k: Kind)
    requires multiset(xs) <= multiset(ys) && NonNegative(ys) && Monotone(k)
    ensures AtMost(Detection(k, Summarise(xs)), Detection(k, Summarise(ys)))
  {
    SummaryGrows(xs, ys);
    DetectionGrows(k, Summarise(xs), Summarise(ys));
  }

  // ---------- order does not matter ----------

  ghost predicate Same(s: Summary, t: Summary) {
    && (forall c :: Spend(s, c) == Spend(t, c))
    && s.counts.Get(VendorPayments, 0) == t.counts.Get(VendorPayments, 0)
    && s.largestCredit == t.largestCredit && s.hospitalMax == t.hospitalMax
    && s.investor == t.investor && s.debits == t.debits && s.credits == t.credits
    && s.hasProperty == t.hasProperty && s.extras == t.extras
  }

  lemma SpendSame(xs: seq<Txn>, ys: seq<Txn>, c: Category)
    requires multiset(xs) == multiset(ys)
    ensures Spend(Summarise(xs), c) == Spend(Summarise(ys), c)
    ensures Summarise(xs).counts.Get(c, 0) == Summarise(ys).counts.Get(c, 0)
    ensures Summarise(xs).debits == Summarise(ys).debits && Summarise(xs).credits == Summarise(ys).credits
  {
    hide Summarise;
    SummaryIsSums(xs, c);
    SummaryIsSums(ys, c);
    SumSame(xs, ys, SpendIn(c));
    SumSame(xs, ys, OneIn(c));
    SumSame(xs, ys, DebitOf());
    SumSame(xs, ys, CreditOf());
  }

  lemma InvestorSame(xs: seq<Txn>, ys: seq<Txn>)
    requires multiset(xs) == multiset(ys)
    ensures Summarise(xs).investor == Summarise(ys).investor
  {
    hide Summarise;
    InvestorIs(xs);
    InvestorIs(ys);
    assert forall t :: t in xs <==> t in multiset(xs);
    assert forall t :: t in ys <==> t in multiset(ys);
  }

  lemma SummarySame(xs: seq<Txn>, ys: seq<Txn>)
    requires multiset(xs) == multiset(ys)
    ensures Same(Summarise(xs), Summarise(ys))
  {
    hide Summarise, Spend, Dict.Get;
    DerivedFlags(xs);
    DerivedFlags(ys);
    PropertyIs(xs);
    PropertyIs(ys);
    MaximaGrow(xs, ys);
    MaximaGrow(ys, xs);
    InvestorSame(xs, ys);
    SpendSame(xs, ys, VendorPayments);
    forall c ensures Spend(Summarise(xs), c) == Spend(Summarise(ys), c) {
      SpendSame(xs, ys, c);
    }
  }

  lemma EvaluationSame(k: Kind, s: Summary, t: Summary)
    requires Same(s, t) && k != Promotion
    ensures Evaluate(k, s) == Evaluate(k, t)
  {
    hide Spend, Rounded;
    assert Spend(s, GstTax) == Spend(t, GstTax);
    assert Spend(s, Category.Jewellery) == Spend(t, Category.Jewellery);
    assert Spend(s, EventsEntertainment) == Spend(t, EventsEntertainment);
    assert Spend(s, RealEstate) == Spend(t, RealEstate);
    assert Spend(s, International) == Spend(t, International);
    assert Spend(s, EducationTesting) == Spend(t, EducationTesting);
  }

  /** Every detection but promotion depends only on which transactions there are. */
  lemma DetectionIsOrderFree(xs: seq<Txn>, ys: seq<Txn>, k: Kind)
    requires multiset(xs) == multiset(ys) && k != Promotion
    ensures Detection(k, Summarise(xs)) == Detection(k, Summarise(ys))
  {
    SummarySame(xs, ys);
    EvaluationSame(k, Summarise(xs), Summarise(ys));
  }

  // ---------- which transactions lead to which detections ----------

  ghost predicate HasBonus(txns: seq<Txn>) { exists t | t in txns :: !t.debit && t.amount > 100000.0 }

  /** The later month's best credit above 10,000 exceeds the earlier one's by more
      than 10.005%. */
  ghost predicate Rises(txns: seq<Txn>, before: nat, last: nat) {
    exists x: real, y: real :: IsBest(txns, before, x) && IsBest(txns, last, y) && y - x > 0.10005 * x
  }

  /** Totals and largest amounts that warrant a detection. Rounding lets
      retirement start at a rate of 0.1995 and promotion just above 10.005%;
      medical starts at 80,000, not at the rule's own 50,000. */
  ghost predicate Warranted(k: Kind, txns: seq<Txn>) {
    match k
    case Wedding => Sum(txns, SpendIn(Category.Jewellery)) >= 25000.0
        || Sum(txns, SpendIn(EventsEntertainment)) >= 15000.0
    case HomePurchase => Sum(txns, SpendIn(RealEstate)) > 0.0
    case ForeignEducation => Sum(txns, SpendIn(EducationTesting)) > 0.0 || Sum(txns, SpendIn(International)) > 50000.0
    case Promotion =>
      HasBonus(txns) && |MonthsOf(txns)| >= 2
      && Rises(txns, MonthsOf(txns)[|MonthsOf(txns)| - 2], MonthsOf(txns)[|MonthsOf(txns)| - 1])
    case BusinessExpansion => Sum(txns, OneIn(VendorPayments)) > 5.0
    case Medical => Exceeds(txns, Hospital(), 80000.0)
    case RetirementPlanning =>
      && HasBroker(txns) && Sum(txns, CreditOf()) > 0.0
      && Sum(txns, DebitOf()) <= 0.8005 * Sum(txns, CreditOf())
    case WealthMigration => Sum(txns, SpendIn(International)) >= 200000.0
  }

  lemma RateReaches(d: real, c: real)
    requires c > 0.0
    ensures Rounded((c - d) / c, 1000) >= 0.20 <==> d <= 0.8005 * c
  {
    var r := (c - d) / c;
    HalfEvenReaches(r * 1000.0, 200);
    assert r * c == c - d;
    Scale(r, 0.1995, c);
  }

  lemma Scale(r: real, x: real, c: real)
    requires c > 0.0
    ensures r >= x <==> r * c >= x * c
    ensures r > x <==> r * c > x * c
  {
  }

  lemma GrowthReaches(before: real, last: real)
    ensures Growth(before, last) > 10.0 <==> before > 0.0 && last - before > 0.10005 * before
  {
    if before > 0.0 {
      var r := (last - before) / before;
      HalfEvenReaches(r * 100.0 * 100.0, 1001);
      assert r * before == last - before;
      Scale(r, 0.10005, before);
    }
  }

  lemma PromotionIs(s: Summary)
    ensures Detection(Promotion, s).Some?
        <==> CreditAbove(s, 100000.0) && LastTwo(s).Some?
             && LastTwo(s).value.0 > 0.0 && LastTwo(s).value.1 - LastTwo(s).value.0 > 0.10005 * LastTwo(s).value.0
  {
    if LastTwo(s).Some? {
      GrowthReaches(LastTwo(s).value.0, LastTwo(s).value.1);
    }
  }

  lemma BonusIs(txns: seq<Txn>)
    ensures CreditAbove(Summarise(txns), 100000.0) <==> HasBonus(txns)
  {
    hide Summarise;
    var best := Summarise(txns).largestCredit;
    if best.Some? {
      LargestCreditIs(txns, best.value);
    }
    forall t | t in txns && !t.debit && t.amount > 100000.0 ensures CreditAbove(Summarise(txns), 100000.0) {
      ExceedsItself(txns, BigCredit(), t);
      LargestCreditIs(txns, t.amount);
    }
  }

  lemma RiseIs(txns: seq<Txn>)
    ensures LastTwo(Summarise(txns)).Some? <==> |MonthsOf(txns)| >= 2
    ensures |MonthsOf(txns)| >= 2 ==>
              var (x, y) := LastTwo(Summarise(txns)).value;
              (x > 0.0 && y - x > 0.10005 * x)
              <==> Rises(txns, MonthsOf(txns)[|MonthsOf(txns)| - 2], MonthsOf(txns)[|MonthsOf(txns)| - 1])
  {
    hide Summarise, MonthsOf, Exceeds;
    MonthsAre(txns);
    var months := MonthsOf(txns);
    if |months| >= 2 {
      var m, n, monthly := months[|months| - 2], months[|months| - 1], Summarise(txns).monthly;
      assert m in monthly.order && n in monthly.order;
      MonthlyIs(txns, m);
      MonthlyIs(txns, n);
      assert IsBest(txns, m, monthly.at[m]) && IsBest(txns, n, monthly.at[n]);
      BestIsPositive(txns, m, monthly.at[m]);
    }
  }

  lemma BestIsPositive(txns: seq<Txn>, m: nat, x: real)
    requires IsBest(txns, m, x)
    ensures x > 10000.0
  {
    var t :| t in txns && InMonth(m)(t) && t.amount >= x;
    assert t.amount <= x;
  }

  lemma PropertyIs(txns: seq<Txn>)
    ensures Summarise(txns).hasProperty <==> Spend(Summarise(txns), RealEstate) > 0.0
  {
    DerivedFlags(txns);
  }

  lemma RetirementIs(s: Summary)
    ensures Detection(RetirementPlanning, s).Some? <==> s.investor && s.credits > 0.0 && s.debits <= 0.8005 * s.credits
  {
    if s.credits > 0.0 {
      RateReaches(s.debits, s.credits);
    }
  }

  lemma MedicalIs(s: Summary)
    ensures Detection(Kind.Medical, s).Some? <==> Reaches(s.hospitalMax, 80000.0)
  {
    hide Rounded;
  }

  lemma SpendingIs(s: Summary)
    requires s.extras == NO_EXTRAS
    ensures Detection(Wedding, s).Some?
        <==> Spend(s, Category.Jewellery) >= 25000.0 || Spend(s, EventsEntertainment) >= 15000.0
    ensures Detection(HomePurchase, s).Some? <==> s.hasProperty
    ensures Detection(ForeignEducation, s).Some?
        <==> Spend(s, EducationTesting) > 0.0 || Spend(s, International) > 50000.0
    ensures Detection(BusinessExpansion, s).Some? <==> s.counts.Get(VendorPayments, 0) > 5
    ensures Detection(WealthMigration, s).Some? <==> Spend(s, International) >= 200000.0
  {
    hide Rounded, Spend;
  }

  /** A kind is detected exactly when the transactions warrant it. */
  lemma DetectedExactly(txns: seq<Txn>, k: Kind)
    ensures Detection(k, Summarise(txns)).Some? <==> Warranted(k, txns)
  {
    hide Detection, Summarise, Sum, HasBroker, Exceeds, MonthsOf, Rises, HasBonus, LastTwo;
    var s := Summarise(txns);
    DerivedFlags(txns);
    SpendingIs(s);
    match k
    case Wedding =>
      SummaryIsSums(txns, Category.Jewellery);
      SummaryIsSums(txns, EventsEntertainment);
    case ForeignEducation =>
      SummaryIsSums(txns, EducationTesting);
      SummaryIsSums(txns, International);
    case HomePurchase =>
      SummaryIsSums(txns, RealEstate);
      PropertyIs(txns);
    case BusinessExpansion => SummaryIsSums(txns, VendorPayments);
    case WealthMigration => SummaryIsSums(txns, International);
    case Promotion =>
      PromotionIs(s);
      BonusIs(txns);
      RiseIs(txns);
    case Medical =>
      MedicalIs(s);
      HospitalMaxIs(txns, 80000.0);
    case RetirementPlanning =>
      RetirementIs(s);
      InvestorIs(txns);
      SummaryIsSums(txns, Other);
  }

  // ---------- with which confidence ----------

  /** `x` is the largest debit with a hospital. */
  ghost predicate LargestBill(txns: seq<Txn>, x: real) {
    Exceeds(txns, Hospital(), x) && forall t | t in txns && Hospital()(t) :: t.amount <= x
  }

  /** The part of the credits that is kept, to three decimals. */
  function Kept(txns: seq<Txn>): real
    requires Sum(txns, CreditOf()) > 0.0
  {
    Rounded((Sum(txns, CreditOf()) - Sum(txns, DebitOf())) / Sum(txns, CreditOf()), 1000)
  }

  ghost predicate ConfidenceIs(k: Kind, txns: seq<Txn>, c: real) {
    match k
    case Wedding =>
      c == if Sum(txns, SpendIn(Category.Jewellery)) >= 25000.0 && Sum(txns, SpendIn(EventsEntertainment)) >= 15000.0
           then 1.0 else if HasBonus(txns) then 0.75 else 0.5
    case HomePurchase => c == 0.7
    case ForeignEducation =>
      c == if Sum(txns, SpendIn(EducationTesting)) > 0.0 && Sum(txns, SpendIn(International)) > 50000.0
           then 1.0 else 0.5
    case Promotion => c == 0.75
    case BusinessExpansion => c == 0.7
    case Medical =>
      exists x :: LargestBill(txns, x) && c == if x >= 200000.0 then 1.0 else Rounded(0.5 + x / 400000.0, 1000)
    case RetirementPlanning =>
      && Sum(txns, CreditOf()) > 0.0
      && c == Rounded(if Kept(txns) >= 0.4 then 0.9 else 0.5 + Kept(txns), 1000)
    case WealthMigration => c == if Sum(txns, SpendIn(International)) >= 1000000.0 then 1.0 else 0.8
  }

  lemma RoundedConstants()
    ensures Rounded(1.0, 1000) == 1.0 && Rounded(0.75, 1000) == 0.75 && Rounded(0.5, 1000) == 0.5
    ensures Rounded(0.7, 1000) == 0.7 && Rounded(0.8, 1000) == 0.8
  {
  }

  lemma SpendingConfidence(k: Kind, s: Summary)
    requires s.extras == NO_EXTRAS && Detection(k, s).Some?
    ensures k == Wedding ==>
              Detection(k, s).value
              == if Spend(s, Category.Jewellery) >= 25000.0 && Spend(s, EventsEntertainment) >= 15000.0 then 1.0
                 else if CreditAbove(s, 100000.0) then 0.75 else 0.5
    ensures k == HomePurchase || k == BusinessExpansion ==> Detection(k, s).value == 0.7
    ensures k == ForeignEducation ==>
              Detection(k, s).value
              == if Spend(s, EducationTesting) > 0.0 && Spend(s, International) > 50000.0 then 1.0 else 0.5
    ensures k == Promotion ==> Detection(k, s).value == 0.75
    ensures k == WealthMigration ==>
              Detection(k, s).value == if Spend(s, International) >= 1000000.0 then 1.0 else 0.8
  {
    RoundedConstants();
    hide Rounded, Spend, LastTwo, Growth;
  }

  lemma MedicalConfidence(s: Summary)
    requires Detection(Kind.Medical, s).Some?
    ensures s.hospitalMax.Some?
    ensures Detection(Kind.Medical, s).value
         == if s.hospitalMax.value >= 200000.0 then 1.0 else Rounded(0.5 + s.hospitalMax.value / 400000.0, 1000)
  {
    RoundedConstants();
    hide Rounded;
    var x := s.hospitalMax.value;
    assert x / 200000.0 * 0.5 == x / 400000.0;
  }

  lemma RetirementConfidence(s: Summary)
    requires Detection(RetirementPlanning, s).Some?
    ensures s.credits > 0.0
    ensures var r := Rounded((s.credits - s.debits) / s.credits, 1000);
            Detection(RetirementPlanning, s).value == Rounded(if r >= 0.4 then 0.9 else 0.5 + r, 1000)
  {
    RetirementIs(s);
    hide Rounded;
  }

  lemma BillIsLargest(txns: seq<Txn>)
    requires Summarise(txns).hospitalMax.Some?
    ensures LargestBill(txns, Summarise(txns).hospitalMax.value)
  {
    hide Summarise, Exceeds;
    var best := Summarise(txns).hospitalMax.value;
    HospitalMaxIs(txns, best);
    forall t | t in txns && Hospital()(t) ensures t.amount <= best {
      ExceedsItself(txns, Hospital(), t);
      HospitalMaxIs(txns, t.amount);
    }
  }

  /** The confidence of every detection, in terms of the transactions. */
  lemma ConfidenceExactly(txns: seq<Txn>, k: Kind)
    requires Detection(k, Summarise(txns)).Some?
    ensures ConfidenceIs(k, txns, Detection(k, Summarise(txns)).value)
  {
    hide Detection, Summarise, Sum, Exceeds, HasBonus, LastTwo, Rounded, Spend, LargestBill;
    var s := Summarise(txns);
    DerivedFlags(txns);
    SpendingConfidence(k, s);
    SpendIs(txns, Category.Jewellery);
    SpendIs(txns, EventsEntertainment);
    SpendIs(txns, EducationTesting);
    SpendIs(txns, International);
    BonusIs(txns);
    if k == Kind.Medical {
      MedicalConfidence(s);
      BillIsLargest(txns);
    } else if k == RetirementPlanning {
      RetirementConfidence(s);
    }
  }

  lemma SpendIs(txns: seq<Txn>, c: Category)
    ensures Spend(Summarise(txns), c) == Sum(txns, SpendIn(c))
    ensures Summarise(txns).credits == Sum(txns, CreditOf()) && Summarise(txns).debits == Sum(txns, DebitOf())
  {
    hide Summarise, Sum;
    SummaryIsSums(txns, c);
  }

  // ---------- the two kinds more data can take away ----------

  function Credit(amount: real, month: nat): Txn { Txn(false, amount, month, Other, false, None, false, false) }

  function Debit(amount: real, broker: bool): Txn { Txn(true, amount, 0, Other, false, None, false, broker) }

  lemma SumNext(txns: seq<Txn>, t: Txn, w: Weight)
    ensures Sum(txns + [t], w) == Sum(txns, w) + w(t)
  {
    assert (txns + [t])[..|txns|] == txns;
  }

  /** One more debit can end a retirement detection. */
  lemma RetirementCanBeLost()
    ensures var xs := [Credit(1000.0, 0)] + [Debit(100.0, true)];
            && Detection(RetirementPlanning, Summarise(xs)).Some?
            && Detection(RetirementPlanning, Summarise(xs + [Debit(800.0, false)])).None?
  {
    var a, b, c := Credit(1000.0, 0), Debit(100.0, true), Debit(800.0, false);
    var xs := [a] + [b];
    SumNext([], a, CreditOf());
    SumNext([], a, DebitOf());
    SumNext([a], b, CreditOf());
    SumNext([a], b, DebitOf());
    SumNext(xs, c, CreditOf());
    SumNext(xs, c, DebitOf());
    assert [] + [a] == [a];
    assert b in xs;
    DetectedExactly(xs, RetirementPlanning);
    DetectedExactly(xs + [c], RetirementPlanning);
  }

  lemma SummariseAppend(txns: seq<Txn>, t: Txn)
    ensures Summarise(txns + [t]) == AddTxn(Summarise(txns), t)
  {
    assert (txns + [t])[..|txns|] == txns;
  }

  lemma TwoMonths(x: real, m: nat, y: real, n: nat)
    requires x > 50000.0 && y > 50000.0 && m != n
    ensures var s := Summarise([Credit(x, m)] + [Credit(y, n)]);
            s.largestCredit == Some(if x >= y then x else y) && LastTwo(s) == Some((x, y))
  {
    var s1 := Summarise([Credit(x, m)]);
    SummariseAppend([], Credit(x, m));
    assert [] + [Credit(x, m)] == [Credit(x, m)];
    assert s1.monthly == Dict([m], map[m := x]) && s1.largestCredit == Some(x);
    SummariseAppend([Credit(x, m)], Credit(y, n));
    assert Summarise([Credit(x, m)] + [Credit(y, n)]).monthly == Dict([m, n], map[m := x, n := y]);
  }

  /** The months' order decides promotion: the same two credits the other way
      round, or a lower credit in a later month, and it is gone. */
  lemma PromotionDependsOnOrder()
    ensures Detection(Promotion, Summarise([Credit(60000.0, 1)] + [Credit(150000.0, 2)])).Some?
    ensures Detection(Promotion, Summarise([Credit(150000.0, 2)] + [Credit(60000.0, 1)])).None?
    ensures Detection(Promotion, Summarise([Credit(60000.0, 1)] + [Credit(150000.0, 2)] + [Credit(60000.0, 3)])).None?
  {
    hide Detection;
    var a, b, c := Credit(60000.0, 1), Credit(150000.0, 2), Credit(60000.0, 3);
    TwoMonths(60000.0, 1, 150000.0, 2);
    TwoMonths(150000.0, 2, 60000.0, 1);
    PromotionIs(Summarise([a] + [b]));
    PromotionIs(Summarise([b] + [a]));
    PromotionLater(a, b, c);
    PromotionIs(Summarise([a] + [b] + [c]));
  }

  lemma PromotionLater(a: Txn, b: Txn, c: Txn)
    requires a == Credit(60000.0, 1) && b == Credit(150000.0, 2) && c == Credit(60000.0, 3)
    ensures LastTwo(Summarise([a] + [b] + [c])) == Some((150000.0, 60000.0))
  {
    SummariseAppend([], a);
    assert [] + [a] == [a];
    SummariseAppend([a], b);
    SummariseAppend([a] + [b], c);
    assert Summarise([a] + [b]).monthly == Dict([1, 2], map[1 := 60000.0, 2 := 150000.0]);
    assert Summarise([a] + [b] + [c]).monthly == Dict([1, 2, 3], map[1 := 60000.0, 2 := 150000.0, 3 := 60000.0]);
  }
}
