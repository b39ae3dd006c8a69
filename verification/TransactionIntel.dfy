/** Statistical summary of a customer's transactions. Each transaction carries
    what the merchant tables and keyword lists say of it alone. */
module TransactionIntel {
  import opened Options
  import opened OrderedDict

  datatype Category =
    | Jewellery | EventsEntertainment | Hospitality | Airlines | Cruise | CarRental | LuxuryRetail
    | EducationTesting | International | Medical | RealEstate | BusinessServices | VendorPayments | GstTax
    | Software | Grocery | Dining | Fuel | BankTransfer | Other

  /** `listed`: category of the merchant code; `abroad`: wire or offshore wording;
      `keyword`: category of the first keyword list that matches. */
  datatype Txn = Txn(debit: bool, amount: real, month: nat, listed: Category, abroad: bool,
                     keyword: Option<Category>, hospitalName: bool, brokerName: bool)

  function CategoryOf(t: Txn): Category {
    if t.abroad then International
    else if t.listed.Other? && t.keyword.Some? then t.keyword.value
    else t.listed
  }

  predicate AtHospital(t: Txn) { t.debit && (t.listed.Medical? || t.hospitalName) }

  /** Signals the rules take from the names of categories, spend in one named
      after furniture or interiors and a category named after visas, and the
      growth of GST payments. No name in this module's table mentions the words
      and the growth is never computed. */
  datatype Extras = Extras(furniture: real, visa: bool, gstGrowth: Option<real>)

  const NO_EXTRAS := Extras(0.0, false, None)

  datatype Summary = Summary(
    debits: real, credits: real,
    amounts: Dict<Category, real>, counts: Dict<Category, nat>,
    largestCredit: Option<real>, hospitalMax: Option<real>, investor: bool,
    monthly: Dict<nat, real>, hasProperty: bool, extras: Extras)

  const NOTHING := Summary(0.0, 0.0, Empty(), Empty(), None, None, false, Empty(), false, NO_EXTRAS)

  function Larger(a: Option<real>, x: real): Option<real> {
    if a.Some? && a.value >= x then a else Some(x)
  }

  /** The best credit above 10,000 of each month, months in order of appearance. */
  function WithMonth(monthly: Dict<nat, real>, t: Txn): Dict<nat, real> {
    if t.debit || t.amount <= 10000.0 then monthly
    else
      monthly.Put(t.month,
                  if t.month in monthly.at && monthly.at[t.month] >= t.amount then monthly.at[t.month] else t.amount)
  }

  function AddTxn(s: Summary, t: Txn): Summary {
    var c := CategoryOf(t);
    var amounts := if t.debit then s.amounts.Put(c, s.amounts.Get(c, 0.0) + t.amount) else s.amounts;
    Summary(
      if t.debit then s.debits + t.amount else s.debits,
      if t.debit then s.credits else s.credits + t.amount,
      amounts,
      if t.debit then s.counts.Put(c, s.counts.Get(c, 0) + 1) else s.counts,
      if !t.debit && t.amount > 50000.0 then Larger(s.largestCredit, t.amount) else s.largestCredit,
      if AtHospital(t) then Larger(s.hospitalMax, t.amount) else s.hospitalMax,
      s.investor || (t.debit && t.brokerName),
      WithMonth(s.monthly, t), amounts.Get(RealEstate, 0.0) > 0.0, s.extras)
  }

  function Summarise(txns: seq<Txn>): Summary {
    if txns == [] then NOTHING else AddTxn(Summarise(txns[..|txns| - 1]), txns[|txns| - 1])
  }

  lemma SummariseNext(txns: seq<Txn>, i: nat)
    requires i < |txns|
    ensures Summarise(txns[..i + 1]) == AddTxn(Summarise(txns[..i]), txns[i])
  {
    assert txns[..i + 1][..i] == txns[..i];
  }

  lemma {:induction false} DerivedFlags(txns: seq<Txn>)
    ensures Summarise(txns).extras == NO_EXTRAS
    ensures Summarise(txns).hasProperty <==> Summarise(txns).amounts.Get(RealEstate, 0.0) > 0.0
  {
    if txns != [] {
      DerivedFlags(txns[..|txns| - 1]);
    }
  }

  /** `_analyse`: one pass for the totals and credits, one for the debits by category. */
  method Analyse(txns: seq<Txn>) returns (s: Summary)
    ensures s == Summarise(txns)
  {
    var debits, credits := 0.0, 0.0;
    var largest: Option<real> := None;
    var monthly: Dict<nat, real> := Empty();
    for i := 0 to |txns|
      invariant debits == Summarise(txns[..i]).debits && credits == Summarise(txns[..i]).credits
      invariant largest == Summarise(txns[..i]).largestCredit && monthly == Summarise(txns[..i]).monthly
    {
      SummariseNext(txns, i);
      var t := txns[i];
      if t.debit {
        debits := debits + t.amount;
      } else {
        credits := credits + t.amount;
        if t.amount > 50000.0 {
          largest := Larger(largest, t.amount);
        }
      }
      monthly := WithMonth(monthly, t);
    }
    var amounts, counts := CategoryTotals(txns);
    var hospital: Option<real> := None;
    var investor := false;
    for i := 0 to |txns|
      invariant hospital == Summarise(txns[..i]).hospitalMax && investor == Summarise(txns[..i]).investor
    {
      SummariseNext(txns, i);
      var t := txns[i];
      if AtHospital(t) {
        hospital := Larger(hospital, t.amount);
      }
      investor := investor || (t.debit && t.brokerName);
    }
    assert txns[..|txns|] == txns;
    DerivedFlags(txns);
    s := Summary(debits, credits, amounts, counts, largest, hospital, investor, monthly,
                 amounts.Get(RealEstate, 0.0) > 0.0, NO_EXTRAS);
  }

  method CategoryTotals(txns: seq<Txn>) returns (amounts: Dict<Category, real>, counts: Dict<Category, nat>)
    ensures amounts == Summarise(txns).amounts && counts == Summarise(txns).counts
  {
    hide Dict.Put, Dict.Get, Larger, WithMonth, AtHospital, CategoryOf;
    amounts, counts := Empty(), Empty();
    for i := 0 to |txns|
      invariant amounts == Summarise(txns[..i]).amounts && counts == Summarise(txns[..i]).counts
    {
      SummariseNext(txns, i);
      if txns[i].debit {
        var c := CategoryOf(txns[i]);
        amounts := amounts.Put(c, amounts.Get(c, 0.0) + txns[i].amount);
        counts := counts.Put(c, counts.Get(c, 0) + 1);
      }
    }
    assert txns[..|txns|] == txns;
  }

  // ---------- totals as sums over the transactions ----------

  type Weight = Txn -> real

  function Sum(txns: seq<Txn>, w: Weight): real {
    if txns == [] then 0.0 else Sum(txns[..|txns| - 1], w) + w(txns[|txns| - 1])
  }

  function DebitOf(): Weight { (t: Txn) => if t.debit then t.amount else 0.0 }

  function CreditOf(): Weight { (t: Txn) => if t.debit then 0.0 else t.amount }

  /** The debit counts towards the category: a wire or offshore payment towards
      international transfers whatever its code or keyword; another one with a
      listed code towards the category of its code; a keyword decides only for
      one that is neither, and without a keyword it is something else. */
  predicate Booked(t: Txn, c: Category) {
    && t.debit
    && (t.abroad ==> c.International?)
    && (!t.abroad && !t.listed.Other? ==> c == t.listed)
    && (!t.abroad && t.listed.Other? && t.keyword.Some? ==> c == t.keyword.value)
    && (!t.abroad && t.listed.Other? && t.keyword.None? ==> c.Other?)
  }

  function SpendIn(c: Category): Weight { (t: Txn) => if Booked(t, c) then t.amount else 0.0 }

  function OneIn(c: Category): Weight { (t: Txn) => if Booked(t, c) then 1.0 else 0.0 }

  lemma BookedExactly(t: Txn, c: Category)
    ensures Booked(t, c) <==> t.debit && CategoryOf(t) == c
  {
  }

  /** The total over the dictionary's entries. */
  function Total(d: Dict<Category, real>, keys: seq<Category>): real {
    if keys == [] then 0.0 else Total(d, keys[..|keys| - 1]) + d.Get(keys[|keys| - 1], 0.0)
  }

  function TotalCount(d: Dict<Category, nat>, keys: seq<Category>): nat {
    if keys == [] then 0 else TotalCount(d, keys[..|keys| - 1]) + d.Get(keys[|keys| - 1], 0)
  }

  lemma {:induction false} SummaryIsSums(txns: seq<Txn>, c: Category)
    ensures var s := Summarise(txns);
            && s.debits == Sum(txns, DebitOf()) && s.credits == Sum(txns, CreditOf())
            && s.amounts.Get(c, 0.0) == Sum(txns, SpendIn(c))
            && s.counts.Get(c, 0) as real == Sum(txns, OneIn(c))
  {
    if txns != [] {
      hide AddTxn, Sum, Dict.Get;
      var front, t := txns[..|txns| - 1], txns[|txns| - 1];
      SummaryIsSums(front, c);
      Added(Summarise(front), t, c);
      assert txns == front + [t];
      SumLast(front, t, DebitOf());
      SumLast(front, t, CreditOf());
      SumLast(front, t, SpendIn(c));
      SumLast(front, t, OneIn(c));
    } else {
      NothingSums(c);
    }
  }

  lemma Added(s: Summary, t: Txn, c: Category)
    ensures var s' := AddTxn(s, t);
            && s'.debits == s.debits + DebitOf()(t) && s'.credits == s.credits + CreditOf()(t)
            && s'.amounts.Get(c, 0.0) == s.amounts.Get(c, 0.0) + SpendIn(c)(t)
            && s'.counts.Get(c, 0) as real == s.counts.Get(c, 0) as real + OneIn(c)(t)
  {
    BookedExactly(t, c);
    hide CategoryOf, Larger, WithMonth, AtHospital, Booked;
  }

  lemma NothingSums(c: Category)
    ensures Sum([], DebitOf()) == Sum([], CreditOf()) == Sum([], SpendIn(c)) == Sum([], OneIn(c)) == 0.0
  {
  }

  lemma {:induction false} TotalOfPut(d: Dict<Category, real>, k: Category, x: real, keys: seq<Category>)
    requires forall i, j | 0 <= i < j < |keys| :: keys[i] != keys[j]
    ensures Total(d.Put(k, x), keys) == Total(d, keys) + if k in keys then x - d.Get(k, 0.0) else 0.0
  {
    if keys != [] {
      TotalOfPut(d, k, x, keys[..|keys| - 1]);
      assert keys == keys[..|keys| - 1] + [keys[|keys| - 1]];
    }
  }

  lemma {:induction false} CountOfPut(d: Dict<Category, nat>, k: Category, x: nat, keys: seq<Category>)
    requires forall i, j | 0 <= i < j < |keys| :: keys[i] != keys[j]
    ensures TotalCount(d.Put(k, x), keys) == TotalCount(d, keys) + if k in keys then x - d.Get(k, 0) else 0
  {
    if keys != [] {
      CountOfPut(d, k, x, keys[..|keys| - 1]);
      assert keys == keys[..|keys| - 1] + [keys[|keys| - 1]];
    }
  }

  function Debits(txns: seq<Txn>): nat {
    if txns == [] then 0 else Debits(txns[..|txns| - 1]) + if txns[|txns| - 1].debit then 1 else 0
  }

  ghost predicate Partitioned(amounts: Dict<Category, real>, counts: Dict<Category, nat>, total: real, debits: nat) {
    && amounts.Valid() && counts.Valid() && amounts.order == counts.order
    && Total(amounts, amounts.order) == total
    && TotalCount(counts, counts.order) == debits
  }

  /** Conservation: the categories partition the debits, in money and in number. */
  lemma {:induction false} CategoriesPartition(txns: seq<Txn>)
    ensures Partitioned(Summarise(txns).amounts, Summarise(txns).counts, Summarise(txns).debits, Debits(txns))
  {
    hide Partitioned, Dict.Put, Dict.Get;
    if txns == [] {
      NothingPartitioned();
    } else {
      CategoriesPartition(txns[..|txns| - 1]);
      var s, t := Summarise(txns[..|txns| - 1]), txns[|txns| - 1];
      if t.debit {
        PartitionStep(s.amounts, s.counts, s.debits, Debits(txns[..|txns| - 1]), CategoryOf(t), t.amount);
      }
    }
  }

  lemma NothingPartitioned()
    ensures Partitioned(NOTHING.amounts, NOTHING.counts, NOTHING.debits, 0)
  {
  }

  lemma PartitionStep(amounts: Dict<Category, real>, counts: Dict<Category, nat>, total: real, debits: nat,
                      c: Category, x: real)
    requires Partitioned(amounts, counts, total, debits)
    ensures Partitioned(amounts.Put(c, amounts.Get(c, 0.0) + x), counts.Put(c, counts.Get(c, 0) + 1),
                        total + x, debits + 1)
  {
    hide Total, TotalCount, Dict.Valid, Dict.Put, Dict.Get;
    AmountsStep(amounts, c, amounts.Get(c, 0.0) + x);
    CountsStep(counts, c, counts.Get(c, 0) + 1);
    SameOrder(amounts, counts, c, amounts.Get(c, 0.0) + x, counts.Get(c, 0) + 1);
  }

  lemma SameOrder(amounts: Dict<Category, real>, counts: Dict<Category, nat>, c: Category, x: real, n: nat)
    requires amounts.Valid() && counts.Valid() && amounts.order == counts.order
    ensures amounts.Put(c, x).order == counts.Put(c, n).order
  {
    assert c in amounts.at <==> c in amounts.order;
    assert c in counts.at <==> c in counts.order;
  }

  lemma AmountsStep(d: Dict<Category, real>, c: Category, x: real)
    requires d.Valid()
    ensures d.Put(c, x).Valid()
    ensures Total(d.Put(c, x), d.Put(c, x).order) == Total(d, d.order) + x - d.Get(c, 0.0)
  {
    hide Total;
    d.PutValid(c, x);
    TotalOfPut(d, c, x, d.order);
    if c !in d.at {
      TotalAppend(d.Put(c, x), d.order, c);
    }
  }

  lemma TotalAppend(d: Dict<Category, real>, keys: seq<Category>, c: Category)
    ensures Total(d, keys + [c]) == Total(d, keys) + d.Get(c, 0.0)
  {
    assert (keys + [c])[..|keys|] == keys;
  }

  lemma CountsStep(d: Dict<Category, nat>, c: Category, x: nat)
    requires d.Valid()
    ensures d.Put(c, x).Valid()
    ensures TotalCount(d.Put(c, x), d.Put(c, x).order) == TotalCount(d, d.order) + x - d.Get(c, 0)
  {
    hide TotalCount;
    d.PutValid(c, x);
    CountOfPut(d, c, x, d.order);
    if c !in d.at {
      CountAppend(d.Put(c, x), d.order, c);
    }
  }

  lemma CountAppend(d: Dict<Category, nat>, keys: seq<Category>, c: Category)
    ensures TotalCount(d, keys + [c]) == TotalCount(d, keys) + d.Get(c, 0)
  {
    assert (keys + [c])[..|keys|] == keys;
  }

  // ---------- order does not matter, more transactions never lower a total ----------

  lemma {:induction false} SumSplit(a: seq<Txn>, b: seq<Txn>, w: Weight)
    ensures Sum(a + b, w) == Sum(a, w) + Sum(b, w)
  {
    if b == [] {
      assert a + b == a;
    } else {
      assert (a + b)[..|a + b| - 1] == a + b[..|b| - 1];
      SumSplit(a, b[..|b| - 1], w);
    }
  }

  function Without(txns: seq<Txn>, i: nat): seq<Txn>
    requires i < |txns|
  {
    txns[..i] + txns[i + 1..]
  }

  lemma WithoutBag(txns: seq<Txn>, i: nat)
    requires i < |txns|
    ensures multiset(txns) == multiset(Without(txns, i)) + multiset{txns[i]}
  {
    assert txns == txns[..i] + [txns[i]] + txns[i + 1..];
  }

  lemma WithoutSum(txns: seq<Txn>, i: nat, w: Weight)
    requires i < |txns|
    ensures Sum(txns, w) == Sum(Without(txns, i), w) + w(txns[i])
  {
    hide Sum;
    SumSplit(txns[..i], txns[i + 1..], w);
    SumSplit(txns[..i + 1], txns[i + 1..], w);
    assert txns == txns[..i + 1] + txns[i + 1..];
    assert txns[..i + 1] == txns[..i] + [txns[i]];
    SumLast(txns[..i], txns[i], w);
  }

  lemma SumLast(front: seq<Txn>, t: Txn, w: Weight)
    ensures Sum(front + [t], w) == Sum(front, w) + w(t)
  {
    assert (front + [t])[..|front|] == front;
  }

  /** `ys` holds `xs` and the leftover transactions. */
  lemma {:induction false} Leftover(xs: seq<Txn>, ys: seq<Txn>, w: Weight) returns (zs: seq<Txn>)
    requires multiset(xs) <= multiset(ys)
    ensures multiset(ys) == multiset(xs) + multiset(zs)
    ensures Sum(ys, w) == Sum(xs, w) + Sum(zs, w)
  {
    if xs == [] {
      zs := ys;
    } else {
      var i := LastIn(xs, ys);
      WithoutSum(ys, i, w);
      LastOut(xs);
      WithoutBag(ys, i);
      LessOne(multiset(xs[..|xs| - 1]), multiset(Without(ys, i)), ys[i]);
      zs := Leftover(xs[..|xs| - 1], Without(ys, i), w);
    }
  }

  lemma LessOne(a: multiset<Txn>, b: multiset<Txn>, t: Txn)
    requires a + multiset{t} <= b + multiset{t}
    ensures a <= b
  {
    forall u ensures a[u] <= b[u] {
      assert (a + multiset{t})[u] <= (b + multiset{t})[u];
    }
  }

  lemma LastOut(xs: seq<Txn>)
    requires xs != []
    ensures multiset(xs) == multiset(xs[..|xs| - 1]) + multiset{xs[|xs| - 1]}
  {
    assert xs == xs[..|xs| - 1] + [xs[|xs| - 1]];
  }

  lemma LastIn(xs: seq<Txn>, ys: seq<Txn>) returns (i: nat)
    requires xs != [] && multiset(xs) <= multiset(ys)
    ensures i < |ys| && ys[i] == xs[|xs| - 1]
  {
    var x := xs[|xs| - 1];
    assert x in xs;
    assert x in multiset(xs);
    assert x in multiset(ys);
    assert x in ys;
    i :| 0 <= i < |ys| && ys[i] == x;
  }

  lemma {:induction false} SumNonNegative(txns: seq<Txn>, w: Weight)
    requires forall t | t in txns :: w(t) >= 0.0
    ensures Sum(txns, w) >= 0.0
  {
    if txns != [] {
      SumNonNegative(txns[..|txns| - 1], w);
    }
  }

  ghost predicate NonNegative(txns: seq<Txn>) { forall t | t in txns :: t.amount >= 0.0 }

  lemma SumGrows(xs: seq<Txn>, ys: seq<Txn>, w: Weight)
    requires multiset(xs) <= multiset(ys) && forall t | t in ys :: w(t) >= 0.0
    ensures Sum(xs, w) <= Sum(ys, w)
  {
    var zs := Leftover(xs, ys, w);
    forall t | t in zs ensures w(t) >= 0.0 {
      assert t in multiset(zs) && t in multiset(ys);
    }
    SumNonNegative(zs, w);
  }

  lemma SumSame(xs: seq<Txn>, ys: seq<Txn>, w: Weight)
    requires multiset(xs) == multiset(ys)
    ensures Sum(xs, w) == Sum(ys, w)
  {
    var zs := Leftover(xs, ys, w);
    assert |multiset(zs)| == |zs| == 0;
  }

  ghost predicate Exceeds(txns: seq<Txn>, p: Txn -> bool, x: real) {
    exists t :: t in txns && p(t) && t.amount >= x
  }

  function BigCredit(): Txn -> bool { (t: Txn) => !t.debit && t.amount > 50000.0 }

  /** A debit with a medical code or a hospital's name. */
  function Hospital(): Txn -> bool { (t: Txn) => t.debit && (t.listed == Medical || t.hospitalName) }

  ghost predicate Reaches(a: Option<real>, x: real) { a.Some? && a.value >= x }

  /** The two maxima are the largest amounts of their kind. */
  lemma {:induction false} LargestCreditIs(txns: seq<Txn>, x: real)
    ensures Reaches(Summarise(txns).largestCredit, x) <==> Exceeds(txns, BigCredit(), x)
  {
    hide Exceeds, WithMonth, CategoryOf, Dict.Put, Dict.Get;
    if txns == [] {
      NoneExceeds(BigCredit(), x);
    } else {
      LargestCreditIs(txns[..|txns| - 1], x);
      assert txns == txns[..|txns| - 1] + [txns[|txns| - 1]];
      ExceedsNext(txns[..|txns| - 1], txns[|txns| - 1], BigCredit(), x);
    }
  }

  lemma {:induction false} HospitalMaxIs(txns: seq<Txn>, x: real)
    ensures Reaches(Summarise(txns).hospitalMax, x) <==> Exceeds(txns, Hospital(), x)
  {
    hide Exceeds, WithMonth, CategoryOf, Dict.Put, Dict.Get;
    if txns == [] {
      NoneExceeds(Hospital(), x);
    } else {
      HospitalMaxIs(txns[..|txns| - 1], x);
      assert txns == txns[..|txns| - 1] + [txns[|txns| - 1]];
      ExceedsNext(txns[..|txns| - 1], txns[|txns| - 1], Hospital(), x);
    }
  }

  lemma NoneExceeds(p: Txn -> bool, x: real)
    ensures !Exceeds([], p, x)
  {
  }

  lemma ExceedsNext(before: seq<Txn>, t: Txn, p: Txn -> bool, x: real)
    ensures Exceeds(before + [t], p, x) <==> Exceeds(before, p, x) || (p(t) && t.amount >= x)
  {
    if Exceeds(before + [t], p, x) {
      var u :| u in before + [t] && p(u) && u.amount >= x;
    }
    if p(t) && t.amount >= x {
      assert t in before + [t];
    }
    if Exceeds(before, p, x) {
      var u :| u in before && p(u) && u.amount >= x;
      assert u in before + [t];
    }
  }

  lemma ExceedsGrows(xs: seq<Txn>, ys: seq<Txn>, p: Txn -> bool, x: real)
    requires multiset(xs) <= multiset(ys)
    ensures Exceeds(xs, p, x) ==> Exceeds(ys, p, x)
  {
    if Exceeds(xs, p, x) {
      var t :| t in xs && p(t) && t.amount >= x;
      assert t in multiset(xs) && t in multiset(ys);
      assert t in ys;
    }
  }

  // ---------- the best credit of each month ----------

  function InMonth(m: nat): Txn -> bool { (t: Txn) => !t.debit && t.amount > 10000.0 && t.month == m }

  /** Months with a credit above 10,000, in order of appearance. */
  function MonthsOf(txns: seq<Txn>): seq<nat> {
    if txns == [] then []
    else
      var months, t := MonthsOf(txns[..|txns| - 1]), txns[|txns| - 1];
      if InMonth(t.month)(t) && t.month !in months then months + [t.month] else months
  }

  /** `x` is the largest of the month's credits above 10,000. */
  ghost predicate IsBest(txns: seq<Txn>, m: nat, x: real) {
    Exceeds(txns, InMonth(m), x) && forall t | t in txns && InMonth(m)(t) :: t.amount <= x
  }

  lemma {:induction false} MonthsAre(txns: seq<Txn>)
    ensures Summarise(txns).monthly.order == MonthsOf(txns) && Summarise(txns).monthly.Valid()
  {
    hide Dict.Get, CategoryOf, AtHospital, Larger;
    if txns != [] {
      MonthsAre(txns[..|txns| - 1]);
      MonthValid(Summarise(txns[..|txns| - 1]).monthly, txns[|txns| - 1]);
    }
  }

  lemma MonthValid(monthly: Dict<nat, real>, t: Txn)
    requires monthly.Valid()
    ensures WithMonth(monthly, t).Valid()
    ensures WithMonth(monthly, t).order
         == if InMonth(t.month)(t) && t.month !in monthly.order then monthly.order + [t.month] else monthly.order
  {
    if InMonth(t.month)(t) {
      monthly.PutValid(t.month, WithMonth(monthly, t).at[t.month]);
    }
  }

  function MonthBest(monthly: Dict<nat, real>, m: nat): Option<real> {
    if m in monthly.at then Some(monthly.at[m]) else None
  }

  lemma MonthNext(monthly: Dict<nat, real>, t: Txn, m: nat, x: real)
    ensures Reaches(MonthBest(WithMonth(monthly, t), m), x)
            <==> Reaches(MonthBest(monthly, m), x) || (InMonth(m)(t) && t.amount >= x)
  {
  }

  lemma {:induction false} MonthReaches(txns: seq<Txn>, m: nat, x: real)
    ensures Reaches(MonthBest(Summarise(txns).monthly, m), x) <==> Exceeds(txns, InMonth(m), x)
  {
    hide Exceeds, WithMonth, CategoryOf, Dict.Put, Dict.Get, AtHospital, Larger, MonthBest, Reaches;
    if txns == [] {
      NoneExceeds(InMonth(m), x);
      NoMonth(m, x);
    } else {
      MonthReaches(txns[..|txns| - 1], m, x);
      MonthNext(Summarise(txns[..|txns| - 1]).monthly, txns[|txns| - 1], m, x);
      assert txns == txns[..|txns| - 1] + [txns[|txns| - 1]];
      ExceedsNext(txns[..|txns| - 1], txns[|txns| - 1], InMonth(m), x);
    }
  }

  lemma NoMonth(m: nat, x: real)
    ensures !Reaches(MonthBest(NOTHING.monthly, m), x)
  {
  }

  /** The summary's entry of a month is the largest of its credits above 10,000. */
  lemma MonthlyIs(txns: seq<Txn>, m: nat)
    requires m in Summarise(txns).monthly.at
    ensures forall x :: IsBest(txns, m, x) <==> x == Summarise(txns).monthly.at[m]
  {
    hide Summarise, Exceeds;
    var best := Summarise(txns).monthly.at[m];
    MonthReaches(txns, m, best);
    forall t | t in txns && InMonth(m)(t) ensures t.amount <= best {
      ExceedsItself(txns, InMonth(m), t);
      MonthReaches(txns, m, t.amount);
    }
    forall x | IsBest(txns, m, x) ensures x == best {
      MonthReaches(txns, m, x);
      BestIsReached(txns, InMonth(m), best, x);
    }
  }

  lemma ExceedsItself(txns: seq<Txn>, p: Txn -> bool, t: Txn)
    requires t in txns && p(t)
    ensures Exceeds(txns, p, t.amount)
  {
  }

  lemma BestIsReached(txns: seq<Txn>, p: Txn -> bool, x: real, bound: real)
    requires Exceeds(txns, p, x) && forall t | t in txns && p(t) :: t.amount <= bound
    ensures x <= bound
  {
    var t :| t in txns && p(t) && t.amount >= x;
  }

  ghost predicate HasBroker(txns: seq<Txn>) { exists t :: t in txns && t.debit && t.brokerName }

  lemma {:induction false} InvestorIs(txns: seq<Txn>)
    ensures Summarise(txns).investor <==> HasBroker(txns)
  {
    hide HasBroker, Dict.Put, Dict.Get, Larger, WithMonth, AtHospital, CategoryOf;
    if txns == [] {
      NoBroker();
    } else {
      InvestorIs(txns[..|txns| - 1]);
      BrokerNext(txns[..|txns| - 1], txns[|txns| - 1]);
      assert txns == txns[..|txns| - 1] + [txns[|txns| - 1]];
    }
  }

  lemma NoBroker()
    ensures !HasBroker([])
  {
  }

  lemma BrokerNext(before: seq<Txn>, t: Txn)
    ensures HasBroker(before + [t]) <==> HasBroker(before) || (t.debit && t.brokerName)
  {
    assert t in before + [t];
    assert forall u :: u in before ==> u in before + [t];
  }
}
