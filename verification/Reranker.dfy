/** What fusion's scores separate, and the reranker's cached cut. */
module Reranker {
  import opened Options
  import opened OrderedDict
  import opened Retrieval

  // ---------- chunks found by both searches ----------

  /** Ranked 1, 2, ... with no chunk twice, as a search returns it. */
  ghost predicate DenseList(rs: seq<Result>) {
    DistinctIds(rs) && forall i | 0 <= i < |rs| :: rs[i].denseRank == Some(i + 1)
  }

  ghost predicate SparseList(rs: seq<Result>) {
    DistinctIds(rs) && forall i | 0 <= i < |rs| :: rs[i].sparseRank == Some(i + 1)
  }

  lemma Scaled(a: real, b: real, x: real)
    requires x > 0.0
    ensures a <= b <==> a * x <= b * x
  {
    assert (b - a) * x == b * x - a * x;
    assert b - a >= 0.0 <==> (b - a) * x >= 0.0;
  }

  lemma InverseMonotone(a: nat, b: nat)
    requires a <= b
    ensures 0.0 < Inverse(b) <= Inverse(a)
  {
    var x, y := (a + RRF_K) as real, (b + RRF_K) as real;
    assert Inverse(a) * x == 1.0 && Inverse(b) * y == 1.0;
    Scaled(x, y, Inverse(b));
    Scaled(Inverse(b), Inverse(a), x);
  }

  /** Two entries at the far end of both lists beat one at the head of a list
      exactly when the lists have at most 61 entries. */
  lemma SeparationExactly(n: nat)
    requires n > 0
    ensures n <= 61 <==> Inverse(n) + Inverse(n) > Inverse(1)
  {
    var x := (n + RRF_K) as real;
    assert Inverse(n) * x == 1.0 && Inverse(1) * 61.0 == 1.0;
    assert (Inverse(n) + Inverse(n)) * x == 2.0;
    assert n <= 61 <==> x < 122.0;
    assert Inverse(1) * x * 61.0 == x;
    Scaled(Inverse(n) + Inverse(n), Inverse(1), x);
  }

  lemma {:induction false} DenseShareOf(rs: seq<Result>, id: string)
    requires DenseList(rs)
    ensures id !in Ids(rs) ==> DenseShare(rs, id) == 0.0
    ensures id in Ids(rs) ==> Inverse(|rs|) <= DenseShare(rs, id) <= Inverse(1)
  {
    if rs != [] {
      var before, r := rs[..|rs| - 1], rs[|rs| - 1];
      DenseShareOf(before, id);
      InverseMonotone(1, |rs|);
      InverseMonotone(|before|, |rs|);
      if r.id == id {
        assert id !in Ids(before);
      }
    }
  }

  lemma {:induction false} SparseShareOf(rs: seq<Result>, id: string)
    requires SparseList(rs)
    ensures id !in Ids(rs) ==> SparseShare(rs, id) == 0.0
    ensures id in Ids(rs) ==> Inverse(|rs|) <= SparseShare(rs, id) <= Inverse(1)
  {
    if rs != [] {
      var before, r := rs[..|rs| - 1], rs[|rs| - 1];
      SparseShareOf(before, id);
      InverseMonotone(1, |rs|);
      InverseMonotone(|before|, |rs|);
      if r.id == id {
        assert id !in Ids(before);
      }
    }
  }

  const TOP_N: nat := 20
  const FINAL_TOP_N: nat := 30

  ghost predicate Both(dense: seq<Result>, sparse: seq<Result>, id: string) {
    id in Ids(dense) && id in Ids(sparse)
  }

  lemma BothOutscoresOne(dense: seq<Result>, sparse: seq<Result>, both: string, one: string)
    requires DenseList(dense) && SparseList(sparse) && |dense| <= 61 && |sparse| <= 61
    requires Both(dense, sparse, both) && !Both(dense, sparse, one)
    ensures DenseShare(dense, both) + SparseShare(sparse, both) > DenseShare(dense, one) + SparseShare(sparse, one)
  {
    DenseShareOf(dense, both);
    SparseShareOf(sparse, both);
    DenseShareOf(dense, one);
    SparseShareOf(sparse, one);
    InverseMonotone(|dense|, 61);
    InverseMonotone(|sparse|, 61);
    InverseMonotone(1, 61);
    SeparationExactly(61);
  }

  /** Every chunk found by both searches comes before every chunk found by one. */
  lemma BothBeforeOne(dense: seq<Result>, sparse: seq<Result>, i: nat, j: nat)
    requires DenseList(dense) && SparseList(sparse) && |dense| <= 61 && |sparse| <= 61
    requires Dense(dense) && Sparse(sparse)
    requires i < |Fuse(dense, sparse)| && j < |Fuse(dense, sparse)|
    requires Both(dense, sparse, Fuse(dense, sparse)[i].id) && !Both(dense, sparse, Fuse(dense, sparse)[j].id)
    ensures i < j
  {
    hide Provenance, DenseShare, SparseShare, Inverse;
    FusionIsExact(dense, sparse);
    var out := Fuse(dense, sparse);
    BothOutscoresOne(dense, sparse, out[i].id, out[j].id);
    assert out[i] in out && out[j] in out;
  }

  lemma {:induction false} DistinctWithin(rs: seq<Result>, ids: set<string>)
    requires DistinctIds(rs) && forall r | r in rs :: r.id in ids
    ensures |rs| <= |ids|
  {
    if rs != [] {
      var last := rs[|rs| - 1];
      DistinctWithin(rs[..|rs| - 1], ids - {last.id});
    }
  }

  lemma {:induction false} IdsAtMost(rs: seq<Result>)
    ensures |Ids(rs)| <= |rs|
  {
    if rs == [] {
      assert Ids(rs) == {};
    } else {
      IdsAtMost(rs[..|rs| - 1]);
      assert rs == rs[..|rs| - 1] + [rs[|rs| - 1]];
      assert Ids(rs) == Ids(rs[..|rs| - 1]) + {rs[|rs| - 1].id};
    }
  }

  lemma BothAreFirst(dense: seq<Result>, sparse: seq<Result>, i: nat)
    requires DenseList(dense) && SparseList(sparse) && |dense| <= 61 && |sparse| <= 61
    requires Dense(dense) && Sparse(sparse)
    requires i < |Fuse(dense, sparse)| && Both(dense, sparse, Fuse(dense, sparse)[i].id)
    ensures i < |dense|
  {
    FusionIsExact(dense, sparse);
    var out := Fuse(dense, sparse);
    var upTo := out[..i + 1];
    forall r | r in upTo ensures r.id in Ids(dense) {
      var j :| 0 <= j <= i && out[j] == r;
      if !Both(dense, sparse, r.id) {
        BothBeforeOne(dense, sparse, i, j);
      }
    }
    DistinctWithin(upTo, Ids(dense));
    IdsAtMost(dense);
  }

  /** With at most 20 results from each search the cut to 30 keeps every chunk
      that both searches found. */
  lemma CutKeepsBoth(dense: seq<Result>, sparse: seq<Result>)
    requires DenseList(dense) && SparseList(sparse) && |dense| <= TOP_N && |sparse| <= TOP_N
    requires Dense(dense) && Sparse(sparse)
    ensures Ids(dense) * Ids(sparse) <= Ids(Cut(Fuse(dense, sparse), FINAL_TOP_N))
  {
    hide DenseList, SparseList, Fuse;
    FusionIsExact(dense, sparse);
    var out := Fuse(dense, sparse);
    forall id | id in Ids(dense) * Ids(sparse) ensures id in Ids(Cut(out, FINAL_TOP_N)) {
      assert id in Ids(out);
      var i :| 0 <= i < |out| && out[i].id == id;
      BothAreFirst(dense, sparse, i);
      assert out[i] in Cut(out, FINAL_TOP_N) by {
        assert |out| >= FINAL_TOP_N ==> out[..FINAL_TOP_N][i] == out[i];
      }
    }
  }

  // ---------- the cached cut ----------

  /** The text that is hashed into the cache key. */
  function KeyOf(query: string, filter: Option<string>): string {
    query + "|" + FilterName(filter)
  }

  function FilterName(filter: Option<string>): string {
    if filter.Some? && filter.value != "" then filter.value else "all"
  }

  /** No filter, an empty one, or one named as if there were none. */
  predicate NoFilter(filter: Option<string>) { filter.None? || filter.value == "" || filter.value == "all" }

  /** Queries share an entry exactly when query and filter agree or neither query
      has a filter, as long as filters contain no bar. */
  lemma KeyIsInjective(q1: string, f1: Option<string>, q2: string, f2: Option<string>)
    requires (f1.Some? ==> '|' !in f1.value) && (f2.Some? ==> '|' !in f2.value)
    ensures KeyOf(q1, f1) == KeyOf(q2, f2) <==> q1 == q2 && (f1 == f2 || (NoFilter(f1) && NoFilter(f2)))
  {
    if KeyOf(q1, f1) == KeyOf(q2, f2) {
      var k, a, b := KeyOf(q1, f1), FilterName(f1), FilterName(f2);
      assert k[|q1|] == '|' && k[|q2|] == '|';
      assert forall i | |q1| < i < |k| :: k[i] == a[i - |q1| - 1];
      assert forall i | |q2| < i < |k| :: k[i] == b[i - |q2| - 1];
      assert |q1| == |q2|;
      assert k[..|q1|] == q1 && k[..|q2|] == q2;
      assert k[|q1| + 1..] == a && k[|q2| + 1..] == b;
    }
  }

  function IdsOf(rs: seq<Result>): seq<string> {
    if rs == [] then [] else [rs[0].id] + IdsOf(rs[1..])
  }

  /** Position of the last candidate with the id, or -1. */
  function LastWith(candidates: seq<Result>, id: string): (i: int)
    ensures -1 <= i < |candidates| && (i >= 0 ==> candidates[i].id == id)
    ensures i == -1 ==> forall r | r in candidates :: r.id != id
    ensures forall j | i < j < |candidates| :: candidates[j].id != id
  {
    if candidates == [] then -1
    else if candidates[|candidates| - 1].id == id then |candidates| - 1
    else LastWith(candidates[..|candidates| - 1], id)
  }

  function OrderByIds(candidates: seq<Result>, ids: seq<string>): seq<Result> {
    if ids == [] then []
    else
      var i := LastWith(candidates, ids[0]);
      (if i < 0 then [] else [candidates[i]]) + OrderByIds(candidates, ids[1..])
  }

  type Cache = map<string, seq<string>>

  /** The result without a cache. */
  function Uncached(candidates: seq<Result>, k: nat): seq<Result> { Cut(SortByScore(candidates), k) }

  predicate Hit(cache: Cache, key: string) { key in cache && cache[key] != [] }

  /** Whether there is Redis and a read of it, or a write, succeeds. */
  datatype Access = Access(canRead: bool, canWrite: bool)

  function Answer(cache: Cache, key: string, candidates: seq<Result>, k: nat, access: Access): seq<Result> {
    if candidates == [] then []
    else if access.canRead && Hit(cache, key) then OrderByIds(candidates, cache[key])
    else Uncached(candidates, k)
  }

  function Stored(cache: Cache, key: string, candidates: seq<Result>, k: nat, access: Access): Cache {
    if candidates == [] || (access.canRead && Hit(cache, key)) || !access.canWrite then cache
    else cache[key := IdsOf(Uncached(candidates, k))]
  }

  class RerankCache {
    var entries: Cache

    constructor ()
      ensures entries == map[]
    {
      entries := map[];
    }

    method Rerank(query: string, candidates: seq<Result>, filter: Option<string>, topK: nat, access: Access)
      returns (results: seq<Result>)
      modifies this
      ensures results == Answer(old(entries), KeyOf(query, filter), candidates, topK, access)
      ensures entries == Stored(old(entries), KeyOf(query, filter), candidates, topK, access)
      ensures DistinctIds(candidates) && old(forall k | k in entries :: NoRepeats(entries[k])) ==>
                DistinctIds(results) && forall k | k in entries :: NoRepeats(entries[k])
      ensures var key := KeyOf(query, filter);
              if access.canRead && Hit(old(entries), key) then
                && entries == old(entries)
                && IdsOf(results) == Present(old(entries)[key], Ids(candidates))
                && forall r | r in results :: LastOfItsId(candidates, r)
              else
                && (exists pos :: Best(candidates, topK, results, pos))
                && (if candidates == [] || !access.canWrite then entries == old(entries)
                    else key in entries && entries == old(entries)[key := entries[key]]
                         && |entries[key]| == |results|
                         && forall i | 0 <= i < |results| :: entries[key][i] == results[i].id)
    {
      hide Best, SortByScore, IdsOf, Present, OrderByIds, KeyOf, LastOfItsId, DistinctIds, NoRepeats;
      SelectedIds(candidates, if Hit(entries, KeyOf(query, filter)) then entries[KeyOf(query, filter)] else []);
      ghost var pos := CutIsBest(candidates, topK);
      if candidates == [] {
        assert Cut(SortByScore(candidates), topK) == [];
        NothingPresent(if Hit(entries, KeyOf(query, filter)) then entries[KeyOf(query, filter)] else []);
        return [];
      }
      var key := KeyOf(query, filter);
      if access.canRead && key in entries && entries[key] != [] {
        results := OrderByIds(candidates, entries[key]);
        if DistinctIds(candidates) && NoRepeats(entries[key]) { SelectionIsExact(candidates, entries[key]); }
        return;
      }
      results := Cut(SortByScore(candidates), topK);
      IdsOfAt(results);
      if DistinctIds(candidates) { BestIsDistinct(candidates, topK); }
      if access.canWrite {
        entries := entries[key := IdsOf(results)];
      }
    }
  }

  lemma {:induction false} NothingPresent(ids: seq<string>)
    ensures Present(ids, Ids([])) == [] && IdsOf([]) == [] && DistinctIds([])
  {
    if ids != [] { NothingPresent(ids[1..]); }
  }

  ghost predicate NoRepeats(ids: seq<string>) {
    forall i, j | 0 <= i < j < |ids| :: ids[i] != ids[j]
  }

  lemma {:induction false} IdsOfAt(rs: seq<Result>)
    ensures |IdsOf(rs)| == |rs| && forall i | 0 <= i < |rs| :: IdsOf(rs)[i] == rs[i].id
  {
    if rs != [] {
      IdsOfAt(rs[1..]);
    }
  }

  lemma BestIsDistinct(candidates: seq<Result>, k: nat)
    requires DistinctIds(candidates)
    ensures DistinctIds(Uncached(candidates, k)) && NoRepeats(IdsOf(Uncached(candidates, k)))
    ensures forall r | r in Uncached(candidates, k) :: r in candidates
    ensures |Uncached(candidates, k)| == if k <= |candidates| then k else |candidates|
  {
    SortSorts(candidates);
    IdsOfAt(Uncached(candidates, k));
  }

  lemma FindsCandidate(candidates: seq<Result>, r: Result)
    requires DistinctIds(candidates) && r in candidates
    ensures LastWith(candidates, r.id) >= 0 && candidates[LastWith(candidates, r.id)] == r
  {
    hide LastWith;
    var i := LastWith(candidates, r.id);
    var j :| 0 <= j < |candidates| && candidates[j] == r;
    assert i >= 0;
    assert candidates[i].id == candidates[j].id;
  }

  /** Looking the ids of some candidates up again gives those candidates. */
  lemma {:induction false} LookupInverts(candidates: seq<Result>, rs: seq<Result>)
    requires DistinctIds(candidates) && forall r | r in rs :: r in candidates
    ensures OrderByIds(candidates, IdsOf(rs)) == rs
  {
    hide DistinctIds, LastWith, OrderByIds;
    if rs == [] {
      NothingOrdered(candidates);
    } else {
      assert rs[0] in rs && forall r | r in rs[1..] :: r in rs;
      FindsCandidate(candidates, rs[0]);
      LookupInverts(candidates, rs[1..]);
      OrderNext(candidates, rs[0].id, IdsOf(rs[1..]));
      assert rs == [rs[0]] + rs[1..];
    }
  }

  lemma NothingOrdered(candidates: seq<Result>)
    ensures OrderByIds(candidates, []) == []
  {
  }

  lemma OrderNext(candidates: seq<Result>, id: string, ids: seq<string>)
    requires LastWith(candidates, id) >= 0
    ensures OrderByIds(candidates, [id] + ids) == [candidates[LastWith(candidates, id)]] + OrderByIds(candidates, ids)
  {
    assert ([id] + ids)[1..] == ids;
  }

  function Present(ids: seq<string>, among: set<string>): seq<string> {
    if ids == [] then [] else (if ids[0] in among then [ids[0]] else []) + Present(ids[1..], among)
  }

  lemma {:induction false} PresentMembers(ids: seq<string>, among: set<string>)
    requires NoRepeats(ids)
    ensures NoRepeats(Present(ids, among)) && forall x :: x in Present(ids, among) <==> x in ids && x in among
  {
    if ids != [] {
      PresentMembers(ids[1..], among);
      assert ids == [ids[0]] + ids[1..];
      assert forall i | 0 < i < |ids| :: ids[i] != ids[0];
    }
  }

  /** For any candidates a hit returns a duplicate-free selection of them: those
      whose ids the entry lists, in the entry's order. */
  lemma {:induction false} SelectionIsExact(candidates: seq<Result>, ids: seq<string>)
    requires DistinctIds(candidates) && NoRepeats(ids)
    ensures var out := OrderByIds(candidates, ids);
            && DistinctIds(out) && (forall r | r in out :: r in candidates)
            && IdsOf(out) == Present(ids, Ids(candidates))
  {
    SelectedIds(candidates, ids);
    PresentMembers(ids, Ids(candidates));
    var out := OrderByIds(candidates, ids);
    IdsOfAt(out);
    forall i, j | 0 <= i < j < |out| ensures out[i].id != out[j].id {
      assert IdsOf(out)[i] != IdsOf(out)[j];
    }
  }

  /** The entry is a candidate, the last with its id. */
  ghost predicate LastOfItsId(candidates: seq<Result>, r: Result) {
    exists i :: 0 <= i < |candidates| && candidates[i] == r
                && forall j | i < j < |candidates| :: candidates[j].id != r.id
  }

  lemma {:induction false} SelectedIds(candidates: seq<Result>, ids: seq<string>)
    ensures IdsOf(OrderByIds(candidates, ids)) == Present(ids, Ids(candidates))
    ensures forall r | r in OrderByIds(candidates, ids) :: r in candidates && LastOfItsId(candidates, r)
  {
    if ids != [] {
      SelectedIds(candidates, ids[1..]);
      var i := LastWith(candidates, ids[0]);
      var rest := OrderByIds(candidates, ids[1..]);
      if i >= 0 {
        assert candidates[i] in candidates;
        assert ([candidates[i]] + rest)[1..] == rest;
      } else {
        assert ids[0] !in Ids(candidates);
        assert [] + rest == rest;
      }
    }
  }

  // ---------- agreement over a run ----------

  datatype Step =
    | Call(key: string, candidates: seq<Result>, k: nat, access: Access)
    | Expire(key: string)

  function Next(cache: Cache, step: Step): Cache {
    match step
    case Call(key, candidates, k, access) => Stored(cache, key, candidates, k, access)
    case Expire(key) => cache - {key}
  }

  function Run(cache: Cache, steps: seq<Step>): Cache
    decreases |steps|
  {
    if steps == [] then cache else Run(Next(cache, steps[0]), steps[1..])
  }

  /** The entry expires, or a call that could not read it writes a new one. */
  predicate Ends(step: Step, key: string) {
    step.key == key && (step.Call? ==> !step.access.canRead && step.access.canWrite && step.candidates != [])
  }

  lemma {:induction false} EntryStays(cache: Cache, steps: seq<Step>, key: string)
    requires Hit(cache, key) && forall step | step in steps :: !Ends(step, key)
    ensures Hit(Run(cache, steps), key) && Run(cache, steps)[key] == cache[key]
    decreases |steps|
  {
    hide Uncached, IdsOf;
    if steps != [] {
      assert steps[0] in steps;
      EntryStays(Next(cache, steps[0]), steps[1..], key);
    }
  }

  /** A later call for the same candidates that reads the entry, while it lasts,
      returns what the uncached sort and cut of the filling call returned; that is
      the right answer exactly when both cuts have the same length. */
  lemma CacheAgrees(cache: Cache, key: string, candidates: seq<Result>, k: nat, access: Access, steps: seq<Step>,
                    later: nat, canWrite: bool)
    requires DistinctIds(candidates) && candidates != [] && k > 0
    requires access.canWrite && !(access.canRead && Hit(cache, key))
    requires forall step | step in steps :: !Ends(step, key)
    ensures var after := Run(Next(cache, Call(key, candidates, k, access)), steps);
            var answer := Answer(after, key, candidates, later, Access(true, canWrite));
            && (exists pos :: Best(candidates, k, answer, pos))
            && ((exists pos :: Best(candidates, later, answer, pos))
                <==> k == later || (k >= |candidates| && later >= |candidates|))
  {
    hide IdsOf, OrderByIds, DistinctIds, NoRepeats, Run, Ends, Best, Uncached;
    BestIsDistinct(candidates, k);
    IdsOfAt(Uncached(candidates, k));
    var filled := Next(cache, Call(key, candidates, k, access));
    assert Hit(filled, key) && filled[key] == IdsOf(Uncached(candidates, k));
    EntryStays(filled, steps, key);
    LookupInverts(candidates, Uncached(candidates, k));
    AnswersBest(candidates, k, later);
    assert Answer(Run(filled, steps), key, candidates, later, Access(true, canWrite)) == Uncached(candidates, k);
  }

  lemma AnswersBest(candidates: seq<Result>, k: nat, later: nat)
    requires DistinctIds(candidates)
    ensures exists pos :: Best(candidates, k, Uncached(candidates, k), pos)
    ensures (exists pos :: Best(candidates, later, Uncached(candidates, k), pos))
            <==> k == later || (k >= |candidates| && later >= |candidates|)
  {
    hide Best, DistinctIds, SortByScore, NoRepeats;
    SameCut(candidates, k, later);
    BestIsDistinct(candidates, k);
    var pos := CutIsBest(candidates, k);
    var other := CutIsBest(candidates, later);
    if Uncached(candidates, k) == Uncached(candidates, later) {
      assert Best(candidates, later, Uncached(candidates, k), other);
    }
    forall p | Best(candidates, later, Uncached(candidates, k), p)
      ensures |Uncached(candidates, k)| == if later <= |candidates| then later else |candidates|
    {
      BestLength(candidates, later, Uncached(candidates, k), p);
    }
  }

  lemma BestLength(rs: seq<Result>, k: nat, out: seq<Result>, pos: seq<nat>)
    requires Best(rs, k, out, pos)
    ensures |out| == if k <= |rs| then k else |rs|
  {
  }

  lemma SameCut(candidates: seq<Result>, k: nat, later: nat)
    requires DistinctIds(candidates)
    ensures Uncached(candidates, k) == Uncached(candidates, later)
            <==> k == later || (k >= |candidates| && later >= |candidates|)
  {
    hide DistinctIds, SortByScore, NoRepeats;
    BestIsDistinct(candidates, k);
    BestIsDistinct(candidates, later);
    SortSorts(candidates);
  }
}
