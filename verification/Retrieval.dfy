/** Reciprocal rank fusion of two result lists, and the score sort behind the
    reranker. Scores are exact rationals. */
module Retrieval {
  import opened Options
  import opened OrderedDict

  datatype Result = Result(id: string, text: string, denseRank: Option<nat>, sparseRank: Option<nat>, score: real)

  const RRF_K: nat := 60

  function Inverse(rank: nat): real { 1.0 / ((rank + RRF_K) as real) }

  // ---------- stable sort, best score first ----------

  /** Before the first entry that is not better: equal scores keep their order. */
  function Insert(x: Result, rs: seq<Result>): seq<Result> {
    if rs == [] || rs[0].score <= x.score then [x] + rs else [rs[0]] + Insert(x, rs[1..])
  }

  /** `sorted(key=score, reverse=True)`. */
  function SortByScore(rs: seq<Result>): seq<Result> {
    if rs == [] then [] else Insert(rs[0], SortByScore(rs[1..]))
  }

  ghost predicate Sorted(rs: seq<Result>) {
    forall i, j | 0 <= i < j < |rs| :: rs[i].score >= rs[j].score
  }

  ghost predicate DistinctIds(rs: seq<Result>) {
    forall i, j | 0 <= i < j < |rs| :: rs[i].id != rs[j].id
  }

  lemma ConsSorted(h: Result, t: seq<Result>)
    ensures Sorted([h] + t) <==> Sorted(t) && forall r | r in t :: h.score >= r.score
  {
    var rs := [h] + t;
    assert forall i | 0 < i < |rs| :: rs[i] == t[i - 1] && rs[i] in t;
    if Sorted(rs) {
      forall k | 0 <= k < |t| ensures h.score >= t[k].score { assert rs[0] == h && rs[k + 1] == t[k]; }
      forall i, j | 0 <= i < j < |t| ensures t[i].score >= t[j].score { assert rs[i + 1] == t[i] && rs[j + 1] == t[j]; }
    }
  }

  lemma ConsDistinct(h: Result, t: seq<Result>)
    ensures DistinctIds([h] + t) <==> DistinctIds(t) && forall r | r in t :: h.id != r.id
  {
    var rs := [h] + t;
    assert forall i | 0 < i < |rs| :: rs[i] == t[i - 1] && rs[i] in t;
    if DistinctIds(rs) {
      forall k | 0 <= k < |t| ensures h.id != t[k].id { assert rs[0] == h && rs[k + 1] == t[k]; }
      forall i, j | 0 <= i < j < |t| ensures t[i].id != t[j].id { assert rs[i + 1] == t[i] && rs[j + 1] == t[j]; }
    }
  }

  lemma Cons(h: Result, t: seq<Result>)
    ensures Sorted([h] + t) <==> Sorted(t) && forall r | r in t :: h.score >= r.score
    ensures DistinctIds([h] + t) <==> DistinctIds(t) && forall r | r in t :: h.id != r.id
  {
    ConsSorted(h, t);
    ConsDistinct(h, t);
  }

  lemma {:induction false} InsertMembers(x: Result, rs: seq<Result>)
    ensures multiset(Insert(x, rs)) == multiset([x] + rs)
    ensures forall r :: r in Insert(x, rs) <==> r == x || r in rs
  {
    if rs != [] && rs[0].score > x.score {
      InsertMembers(x, rs[1..]);
      assert rs == [rs[0]] + rs[1..];
    }
  }

  lemma NoneSorted()
    ensures Sorted([]) && DistinctIds([])
  {
  }

  lemma {:induction false} InsertSorts(x: Result, rs: seq<Result>)
    ensures Sorted(rs) ==> Sorted(Insert(x, rs))
    ensures DistinctIds(rs) && (forall r | r in rs :: r.id != x.id) ==> DistinctIds(Insert(x, rs))
  {
    hide Sorted, DistinctIds;
    if rs == [] {
      NoneSorted();
      Cons(x, []);
      assert [x] + [] == [x];
    } else {
      assert rs == [rs[0]] + rs[1..];
      Cons(rs[0], rs[1..]);
      if rs[0].score <= x.score {
        Cons(x, rs);
      } else {
        InsertSorts(x, rs[1..]);
        InsertMembers(x, rs[1..]);
        Cons(rs[0], Insert(x, rs[1..]));
      }
    }
  }

  /** The sort returns the same entries, best first. */
  lemma {:induction false} SortSorts(rs: seq<Result>)
    ensures Sorted(SortByScore(rs)) && multiset(SortByScore(rs)) == multiset(rs)
    ensures forall r :: r in SortByScore(rs) <==> r in rs
    ensures |SortByScore(rs)| == |rs|
    ensures DistinctIds(rs) ==> DistinctIds(SortByScore(rs))
  {
    if rs != [] {
      var rest := SortByScore(rs[1..]);
      assert rs == [rs[0]] + rs[1..];
      SortSorts(rs[1..]);
      InsertMembers(rs[0], rest);
      InsertSorts(rs[0], rest);
      Cons(rs[0], rs[1..]);
      assert multiset([rs[0]] + rest) == multiset([rs[0]] + rs[1..]);
      assert |multiset(Insert(rs[0], rest))| == |[rs[0]] + rest|;
    }
  }

  // ---------- best first, ties as they came ----------

  /** Entry `a` comes before entry `b`: it scores higher, or as high and came first. */
  ghost predicate Ahead(rs: seq<Result>, a: nat, b: nat)
    requires a < |rs| && b < |rs|
  {
    rs[a].score > rs[b].score || (rs[a].score == rs[b].score && a < b)
  }

  /** `out` is the best `k` of the entries, at positions `pos`: each is ahead of the
      next and of every entry left out. */
  ghost predicate Best(rs: seq<Result>, k: nat, out: seq<Result>, pos: seq<nat>) {
    && |out| == |pos| == (if k <= |rs| then k else |rs|)
    && (forall i | 0 <= i < |pos| :: pos[i] < |rs| && out[i] == rs[pos[i]])
    && (forall i, j | 0 <= i < j < |pos| :: Ahead(rs, pos[i], pos[j]))
    && (forall i, p | 0 <= i < |pos| && 0 <= p < |rs| && p !in pos :: Ahead(rs, pos[i], p))
  }

  lemma {:induction false} InsertAt(x: Result, rs: seq<Result>) returns (m: nat)
    ensures m <= |rs| && Insert(x, rs) == rs[..m] + [x] + rs[m..]
    ensures forall i | 0 <= i < m :: rs[i].score > x.score
    ensures m < |rs| ==> rs[m].score <= x.score
  {
    if rs == [] || rs[0].score <= x.score {
      m := 0;
    } else {
      var n := InsertAt(x, rs[1..]);
      m := n + 1;
      assert rs[..m] == [rs[0]] + rs[1..][..n] && rs[m..] == rs[1..][n..];
    }
  }

  function Shifted(pos: seq<nat>): seq<nat> { seq(|pos|, i requires 0 <= i < |pos| => pos[i] + 1) }

  lemma ShiftedIn(pos: seq<nat>, p: nat)
    requires p > 0
    ensures p in Shifted(pos) <==> p - 1 in pos
  {
    if p - 1 in pos {
      var i :| 0 <= i < |pos| && pos[i] == p - 1;
      assert Shifted(pos)[i] == p;
    }
  }

  lemma AllPositions(before: seq<nat>, n: nat, m: nat, pos: seq<nat>)
    requires m <= |before| && pos == Shifted(before)[..m] + [0] + Shifted(before)[m..]
    requires forall p: nat | p < n :: p in before
    ensures forall p: nat | p < n + 1 :: p in pos
  {
    var shifted := Shifted(before);
    forall p: nat | p < n + 1 ensures p in pos {
      if p > 0 {
        ShiftedIn(before, p);
        assert shifted == shifted[..m] + shifted[m..];
      }
    }
  }

  /** The sort puts every entry ahead of the later ones. */
  lemma {:induction false} SortRanks(rs: seq<Result>) returns (pos: seq<nat>)
    ensures Best(rs, |rs|, SortByScore(rs), pos) && forall p: nat | p < |rs| :: p in pos
  {
    hide Ahead, Sorted;
    if rs == [] {
      pos := [];
    } else {
      var before := SortRanks(rs[1..]);
      var rest := SortByScore(rs[1..]);
      var m := InsertAt(rs[0], rest);
      var shifted := Shifted(before);
      pos := shifted[..m] + [0] + shifted[m..];
      SortSorts(rs[1..]);
      AllPositions(before, |rs| - 1, m, pos);
      InsertedRanks(rs, rest, before, m, pos);
    }
  }

  /** Index `i` of the list with the new entry, in the list without it. */
  function Without(m: nat, i: nat): nat
    requires i != m
  {
    if i < m then i else i - 1
  }

  lemma InsertedAt<T>(a: seq<T>, x: T, m: nat, i: nat)
    requires m <= |a| && i <= |a|
    ensures (a[..m] + [x] + a[m..])[i] == if i == m then x else a[Without(m, i)]
  {
  }

  /** Where in the whole list the entry at `i` of the new list came from. */
  function Origin(before: seq<nat>, m: nat, i: nat): nat
    requires i <= |before| && m <= |before|
  {
    if i == m then 0 else before[Without(m, i)] + 1
  }

  lemma InsertedAhead(rs: seq<Result>, rest: seq<Result>, before: seq<nat>, m: nat, i: nat, j: nat)
    requires rs != [] && Best(rs[1..], |rs| - 1, rest, before) && Sorted(rest) && m <= |rest|
    requires forall k | 0 <= k < m :: rest[k].score > rs[0].score
    requires m < |rest| ==> rest[m].score <= rs[0].score
    requires i < j <= |rest|
    ensures Origin(before, m, i) < |rs| && Origin(before, m, j) < |rs|
    ensures Ahead(rs, Origin(before, m, i), Origin(before, m, j))
  {
    if i == m {
      assert rest[m].score >= rest[j - 1].score;
      assert rs[before[j - 1] + 1] == rs[1..][before[j - 1]];
    } else if j == m {
      assert rs[before[i] + 1] == rs[1..][before[i]];
    } else {
      var a, b := Without(m, i), Without(m, j);
      assert Ahead(rs[1..], before[a], before[b]);
      assert rs[before[a] + 1] == rs[1..][before[a]] && rs[before[b] + 1] == rs[1..][before[b]];
    }
  }

  lemma InsertedRanks(rs: seq<Result>, rest: seq<Result>, before: seq<nat>, m: nat, pos: seq<nat>)
    requires rs != [] && Best(rs[1..], |rs| - 1, rest, before) && Sorted(rest) && m <= |rest|
    requires forall k | 0 <= k < m :: rest[k].score > rs[0].score
    requires m < |rest| ==> rest[m].score <= rs[0].score
    requires pos == Shifted(before)[..m] + [0] + Shifted(before)[m..]
    requires forall p: nat | p < |rs| :: p in pos
    ensures Best(rs, |rs|, rest[..m] + [rs[0]] + rest[m..], pos)
  {
    hide Ahead, Sorted;
    var out := rest[..m] + [rs[0]] + rest[m..];
    forall i | 0 <= i < |pos|
      ensures pos[i] == Origin(before, m, i) && pos[i] < |rs| && out[i] == rs[pos[i]]
    {
      InsertedAt(Shifted(before), 0, m, i);
      InsertedAt(rest, rs[0], m, i);
      if i != m { assert rs[1..][before[Without(m, i)]] == rs[before[Without(m, i)] + 1]; }
    }
    forall i, j | 0 <= i < j < |pos| ensures Ahead(rs, pos[i], pos[j]) {
      InsertedAhead(rs, rest, before, m, i, j);
    }
  }

  /** The first `k` of the sorted entries are the best `k`. */
  lemma CutIsBest(rs: seq<Result>, k: nat) returns (pos: seq<nat>)
    ensures Best(rs, k, Cut(SortByScore(rs), k), pos)
  {
    var all := SortRanks(rs);
    pos := if k <= |rs| then all[..k] else all;
    forall i, p | 0 <= i < |pos| && 0 <= p < |rs| && p !in pos ensures Ahead(rs, pos[i], p) {
      assert p in all;
      var j :| 0 <= j < |all| && all[j] == p;
      NotInFront(all, |pos|, j);
    }
  }

  lemma NotInFront(all: seq<nat>, k: nat, j: nat)
    requires k <= |all| && j < |all| && all[j] !in all[..k]
    ensures j >= k
  {
  }

  function Cut(rs: seq<Result>, k: nat): seq<Result> { if k <= |rs| then rs[..k] else rs }

  // ---------- fusion ----------

  datatype Merge = Merge(scores: Dict<string, real>, merged: Dict<string, Result>)

  function AddDense(m: Merge, r: Result): Merge
    requires r.denseRank.Some?
  {
    Merge(m.scores.Put(r.id, m.scores.Get(r.id, 0.0) + Inverse(r.denseRank.value)),
          m.merged.Put(r.id, r))
  }

  function AddSparse(m: Merge, r: Result): Merge
    requires r.sparseRank.Some?
  {
    Merge(m.scores.Put(r.id, m.scores.Get(r.id, 0.0) + Inverse(r.sparseRank.value)), WithSparse(m.merged, r))
  }

  /** A chunk already found keeps its entry and gains the sparse rank. */
  function WithSparse(merged: Dict<string, Result>, r: Result): Dict<string, Result> {
    if r.id in merged.at then merged.Put(r.id, merged.at[r.id].(sparseRank := r.sparseRank)) else merged.Put(r.id, r)
  }

  ghost predicate Dense(rs: seq<Result>) { forall r | r in rs :: r.denseRank.Some? }

  ghost predicate Sparse(rs: seq<Result>) { forall r | r in rs :: r.sparseRank.Some? }

  ghost function AfterDense(dense: seq<Result>): Merge
    requires Dense(dense)
  {
    if dense == [] then Merge(Empty(), Empty()) else AddDense(AfterDense(dense[..|dense| - 1]), dense[|dense| - 1])
  }

  ghost function AfterSparse(dense: seq<Result>, sparse: seq<Result>): Merge
    requires Dense(dense) && Sparse(sparse)
  {
    if sparse == [] then AfterDense(dense)
    else AddSparse(AfterSparse(dense, sparse[..|sparse| - 1]), sparse[|sparse| - 1])
  }

  /** The merged entries in the order they were first met, with their scores. */
  function Scored(m: Merge, order: seq<string>): seq<Result>
    requires forall k | k in order :: k in m.merged.at && k in m.scores.at
  {
    seq(|order|, i requires 0 <= i < |order| => m.merged.at[order[i]].(score := m.scores.at[order[i]]))
  }

  ghost predicate SameKeys(m: Merge) {
    m.scores.Valid() && m.merged.Valid() && m.scores.at.Keys == m.merged.at.Keys
  }

  lemma PutKeepsKeys(m: Merge, k: string, x: real, r: Result)
    requires SameKeys(m)
    ensures SameKeys(Merge(m.scores.Put(k, x), m.merged.Put(k, r)))
    ensures m.merged.Put(k, r).at.Keys == m.merged.at.Keys + {k}
  {
    m.scores.PutValid(k, x);
    m.merged.PutValid(k, r);
  }

  lemma SparseKeepsKeys(m: Merge, r: Result)
    requires SameKeys(m) && r.sparseRank.Some?
    ensures SameKeys(AddSparse(m, r)) && AddSparse(m, r).merged.at.Keys == m.merged.at.Keys + {r.id}
  {
    var x := m.scores.Get(r.id, 0.0) + Inverse(r.sparseRank.value);
    PutKeepsKeys(m, r.id, x, if r.id in m.merged.at then m.merged.at[r.id].(sparseRank := r.sparseRank) else r);
  }

  lemma DenseKeepsKeys(m: Merge, r: Result)
    requires SameKeys(m) && r.denseRank.Some?
    ensures SameKeys(AddDense(m, r)) && AddDense(m, r).merged.at.Keys == m.merged.at.Keys + {r.id}
  {
    hide SameKeys, Dict.Put, Dict.Get;
    PutKeepsKeys(m, r.id, m.scores.Get(r.id, 0.0) + Inverse(r.denseRank.value), r);
  }

  lemma {:induction false} MergeKeys(dense: seq<Result>, sparse: seq<Result>)
    requires Dense(dense) && Sparse(sparse)
    ensures SameKeys(AfterSparse(dense, sparse))
    decreases |sparse|, |dense|
  {
    if sparse != [] {
      MergeKeys(dense, sparse[..|sparse| - 1]);
      SparseKeepsKeys(AfterSparse(dense, sparse[..|sparse| - 1]), sparse[|sparse| - 1]);
    } else if dense != [] {
      MergeKeys(dense[..|dense| - 1], []);
      DenseKeepsKeys(AfterDense(dense[..|dense| - 1]), dense[|dense| - 1]);
    }
  }

  ghost function Fuse(dense: seq<Result>, sparse: seq<Result>): seq<Result>
    requires Dense(dense) && Sparse(sparse)
  {
    MergeKeys(dense, sparse);
    var m := AfterSparse(dense, sparse);
    SortByScore(Scored(m, m.merged.order))
  }

  lemma NextDense(dense: seq<Result>, i: nat)
    requires Dense(dense) && i < |dense|
    ensures AfterDense(dense[..i + 1]) == AddDense(AfterDense(dense[..i]), dense[i])
  {
    assert dense[..i + 1][..i] == dense[..i];
  }

  lemma NextSparse(dense: seq<Result>, sparse: seq<Result>, i: nat)
    requires Dense(dense) && Sparse(sparse) && i < |sparse|
    ensures AfterSparse(dense, sparse[..i + 1]) == AddSparse(AfterSparse(dense, sparse[..i]), sparse[i])
  {
    assert sparse[..i + 1][..i] == sparse[..i];
  }

  /** The first loop: scores and entries of the dense list. */
  method ScoreDense(dense: seq<Result>) returns (scores: Dict<string, real>, merged: Dict<string, Result>)
    requires Dense(dense)
    ensures Merge(scores, merged) == AfterDense(dense)
  {
    hide Dict.Put, Dict.Get, Inverse;
    scores, merged := Empty(), Empty();
    for i := 0 to |dense|
      invariant Merge(scores, merged) == AfterDense(dense[..i])
    {
      var r := dense[i];
      NextDense(dense, i);
      scores := scores.Put(r.id, scores.Get(r.id, 0.0) + Inverse(r.denseRank.value));
      merged := merged.Put(r.id, r);
    }
    assert dense[..|dense|] == dense;
  }

  /** The second loop: adds the sparse list to them. */
  method ScoreSparse(ghost dense: seq<Result>, sparse: seq<Result>,
                     scores0: Dict<string, real>, merged0: Dict<string, Result>)
    returns (scores: Dict<string, real>, merged: Dict<string, Result>)
    requires Dense(dense) && Sparse(sparse) && Merge(scores0, merged0) == AfterDense(dense)
    ensures Merge(scores, merged) == AfterSparse(dense, sparse)
  {
    hide Dict.Put, Dict.Get, Inverse, WithSparse;
    scores, merged := scores0, merged0;
    for i := 0 to |sparse|
      invariant Merge(scores, merged) == AfterSparse(dense, sparse[..i])
    {
      var r := sparse[i];
      NextSparse(dense, sparse, i);
      scores := scores.Put(r.id, scores.Get(r.id, 0.0) + Inverse(r.sparseRank.value));
      merged := WithSparse(merged, r);
    }
    assert sparse[..|sparse|] == sparse;
  }

  method ReciprocalRankFusion(dense: seq<Result>, sparse: seq<Result>) returns (results: seq<Result>)
    requires Dense(dense) && Sparse(sparse)
    ensures results == Fuse(dense, sparse)
  {
    var scores, merged := ScoreDense(dense);
    scores, merged := ScoreSparse(dense, sparse, scores, merged);
    MergeKeys(dense, sparse);
    results := SortByScore(Scored(Merge(scores, merged), merged.order));
  }

  // ---------- what fusion computes ----------

  /** The share of a chunk's score that comes from the dense list. */
  function DenseShare(dense: seq<Result>, id: string): real {
    if dense == [] then 0.0
    else
      var r := dense[|dense| - 1];
      DenseShare(dense[..|dense| - 1], id) + if r.id == id && r.denseRank.Some? then Inverse(r.denseRank.value) else 0.0
  }

  function SparseShare(sparse: seq<Result>, id: string): real {
    if sparse == [] then 0.0
    else
      var r := sparse[|sparse| - 1];
      SparseShare(sparse[..|sparse| - 1], id)
      + if r.id == id && r.sparseRank.Some? then Inverse(r.sparseRank.value) else 0.0
  }

  function Ids(rs: seq<Result>): set<string> { set r | r in rs :: r.id }

  ghost predicate ScoreOk(scores: Dict<string, real>, dense: seq<Result>, sparse: seq<Result>, k: string) {
    scores.Get(k, 0.0) == DenseShare(dense, k) + SparseShare(sparse, k)
  }

  ghost predicate FromDense(r: Result, dense: seq<Result>) {
    exists d | d in dense :: d.id == r.id && d.text == r.text && d.denseRank == r.denseRank
  }

  ghost predicate FromSparse(r: Result, sparse: seq<Result>) {
    exists q | q in sparse :: q.id == r.id && q.text == r.text && q.denseRank == r.denseRank
  }

  ghost predicate SparseRankOf(r: Result, sparse: seq<Result>) {
    exists q | q in sparse :: q.id == r.id && q.sparseRank == r.sparseRank
  }

  /** A chunk is the dense search's entry if that found it, else the sparse
      search's, and carries the sparse rank whenever there is one. */
  ghost predicate Provenance(r: Result, dense: seq<Result>, sparse: seq<Result>) {
    && (if r.id in Ids(dense) then FromDense(r, dense) else FromSparse(r, sparse))
    && (r.id in Ids(sparse) ==> SparseRankOf(r, sparse))
  }

  ghost predicate EntryOk(merged: Dict<string, Result>, dense: seq<Result>, sparse: seq<Result>, k: string) {
    k in merged.at ==> merged.at[k].id == k && Provenance(merged.at[k], dense, sparse)
  }

  ghost predicate Accounts(m: Merge, dense: seq<Result>, sparse: seq<Result>) {
    && SameKeys(m) && m.merged.at.Keys == Ids(dense) + Ids(sparse)
    && (forall k :: ScoreOk(m.scores, dense, sparse, k))
    && (forall k :: EntryOk(m.merged, dense, sparse, k))
  }

  lemma DenseScore(scores: Dict<string, real>, dense: seq<Result>, r: Result, k: string)
    requires r.denseRank.Some? && ScoreOk(scores, dense, [], k)
    ensures ScoreOk(scores.Put(r.id, scores.Get(r.id, 0.0) + Inverse(r.denseRank.value)), dense + [r], [], k)
  {
    assert (dense + [r])[..|dense|] == dense;
  }

  lemma SparseScore(scores: Dict<string, real>, dense: seq<Result>, sparse: seq<Result>, r: Result, k: string)
    requires r.sparseRank.Some? && ScoreOk(scores, dense, sparse, k)
    ensures ScoreOk(scores.Put(r.id, scores.Get(r.id, 0.0) + Inverse(r.sparseRank.value)), dense, sparse + [r], k)
  {
    assert (sparse + [r])[..|sparse|] == sparse;
  }

  lemma DenseEntry(merged: Dict<string, Result>, dense: seq<Result>, r: Result, k: string)
    requires EntryOk(merged, dense, [], k)
    ensures EntryOk(merged.Put(r.id, r), dense + [r], [], k)
  {
    assert Ids(dense + [r]) == Ids(dense) + {r.id};
    assert r in dense + [r];
    assert forall d | d in dense :: d in dense + [r];
  }

  lemma SparseEntry(merged: Dict<string, Result>, dense: seq<Result>, sparse: seq<Result>, r: Result, k: string)
    requires EntryOk(merged, dense, sparse, k) && (k in Ids(dense) ==> k in merged.at)
    ensures EntryOk(WithSparse(merged, r), dense, sparse + [r], k)
  {
    assert Ids(sparse + [r]) == Ids(sparse) + {r.id};
    assert r in sparse + [r];
    assert forall q | q in sparse :: q in sparse + [r];
  }

  lemma DenseAccountsStep(m: Merge, dense: seq<Result>, r: Result)
    requires r.denseRank.Some? && Accounts(m, dense, [])
    ensures Accounts(AddDense(m, r), dense + [r], [])
  {
    hide SameKeys, Inverse, ScoreOk, EntryOk;
    DenseKeepsKeys(m, r);
    assert Ids(dense + [r]) == Ids(dense) + {r.id};
    var m' := AddDense(m, r);
    forall k ensures ScoreOk(m'.scores, dense + [r], [], k) { DenseScore(m.scores, dense, r, k); }
    forall k ensures EntryOk(m'.merged, dense + [r], [], k) { DenseEntry(m.merged, dense, r, k); }
  }

  lemma SparseAccountsStep(m: Merge, dense: seq<Result>, sparse: seq<Result>, r: Result)
    requires r.sparseRank.Some? && Accounts(m, dense, sparse)
    ensures Accounts(AddSparse(m, r), dense, sparse + [r])
  {
    hide SameKeys, Inverse, ScoreOk, EntryOk, WithSparse;
    SparseKeepsKeys(m, r);
    assert Ids(sparse + [r]) == Ids(sparse) + {r.id};
    var m' := AddSparse(m, r);
    forall k ensures ScoreOk(m'.scores, dense, sparse + [r], k) { SparseScore(m.scores, dense, sparse, r, k); }
    forall k ensures EntryOk(m'.merged, dense, sparse + [r], k) { SparseEntry(m.merged, dense, sparse, r, k); }
  }

  lemma {:induction false} MergeAccounts(dense: seq<Result>, sparse: seq<Result>)
    requires Dense(dense) && Sparse(sparse)
    ensures Accounts(AfterSparse(dense, sparse), dense, sparse)
    decreases |sparse|, |dense|
  {
    hide Accounts, AddDense, AddSparse;
    if sparse != [] {
      var before, r := sparse[..|sparse| - 1], sparse[|sparse| - 1];
      MergeAccounts(dense, before);
      SparseAccountsStep(AfterSparse(dense, before), dense, before, r);
      assert sparse == before + [r];
    } else if dense != [] {
      var before, r := dense[..|dense| - 1], dense[|dense| - 1];
      MergeAccounts(before, []);
      DenseAccountsStep(AfterDense(before), before, r);
      assert dense == before + [r];
    } else {
      NothingAccounts();
    }
  }

  lemma NothingAccounts()
    ensures Accounts(Merge(Empty(), Empty()), [], [])
  {
  }

  /** Score and provenance of one returned entry. */
  ghost predicate Fused(r: Result, dense: seq<Result>, sparse: seq<Result>) {
    r.score == DenseShare(dense, r.id) + SparseShare(sparse, r.id) && Provenance(r, dense, sparse)
  }

  lemma ScoredEntry(m: Merge, dense: seq<Result>, sparse: seq<Result>, k: string)
    requires Accounts(m, dense, sparse) && k in m.merged.at
    ensures k in m.scores.at && m.merged.at[k].id == k && Fused(m.merged.at[k].(score := m.scores.at[k]), dense, sparse)
  {
    hide DenseShare, SparseShare, Ids;
    assert ScoreOk(m.scores, dense, sparse, k) && EntryOk(m.merged, dense, sparse, k);
  }

  lemma ScoredEntries(m: Merge, dense: seq<Result>, sparse: seq<Result>)
    requires Accounts(m, dense, sparse)
    ensures var rs := Scored(m, m.merged.order);
            && DistinctIds(rs) && Ids(rs) == Ids(dense) + Ids(sparse)
            && forall r | r in rs :: Fused(r, dense, sparse)
  {
    hide Fused, ScoreOk, EntryOk;
    var order := m.merged.order;
    var rs := Scored(m, order);
    forall i | 0 <= i < |order| ensures rs[i].id == order[i] && Fused(rs[i], dense, sparse) {
      ScoredEntry(m, dense, sparse, order[i]);
    }
    forall k | k in m.merged.at ensures k in Ids(rs) {
      var i :| 0 <= i < |order| && order[i] == k;
      assert rs[i] in rs;
    }
  }

  /** Fusion returns every chunk found by either search exactly once, scored by
      the exact sum of its inverse ranks, best first. */
  lemma FusionIsExact(dense: seq<Result>, sparse: seq<Result>)
    requires Dense(dense) && Sparse(sparse)
    ensures var out := Fuse(dense, sparse);
            && DistinctIds(out) && Ids(out) == Ids(dense) + Ids(sparse) && Sorted(out)
            && forall r | r in out :: Fused(r, dense, sparse)
  {
    hide Fused, ScoreOk, EntryOk;
    MergeAccounts(dense, sparse);
    var m := AfterSparse(dense, sparse);
    ScoredEntries(m, dense, sparse);
    SortSorts(Scored(m, m.merged.order));
  }

  /** Where the id first stands in the list. */
  function FirstAt(rs: seq<Result>, id: string): nat {
    if rs == [] || rs[0].id == id then 0 else 1 + FirstAt(rs[1..], id)
  }

  lemma {:induction false} FirstAtAppend(rs: seq<Result>, r: Result, id: string)
    ensures id in Ids(rs) ==> FirstAt(rs + [r], id) == FirstAt(rs, id) < |rs|
    ensures id !in Ids(rs) && r.id == id ==> FirstAt(rs + [r], id) == |rs|
  {
    if rs != [] {
      assert (rs + [r])[1..] == rs[1..] + [r] && rs == [rs[0]] + rs[1..];
      assert Ids(rs) == {rs[0].id} + Ids(rs[1..]);
      FirstAtAppend(rs[1..], r, id);
    }
  }

  /** The dictionary's keys, in the order in which they first stand in the list. */
  ghost predicate AsMet(order: seq<string>, rs: seq<Result>) {
    && (forall k :: k in order <==> k in Ids(rs))
    && (forall i, j | 0 <= i < j < |order| :: FirstAt(rs, order[i]) < FirstAt(rs, order[j]))
  }

  lemma AsMetNext(order: seq<string>, rs: seq<Result>, r: Result)
    requires AsMet(order, rs)
    ensures AsMet(if r.id in order then order else order + [r.id], rs + [r])
  {
    assert Ids(rs + [r]) == Ids(rs) + {r.id};
    forall k | k in Ids(rs + [r]) ensures FirstAt(rs + [r], k) == if k in Ids(rs) then FirstAt(rs, k) else |rs| {
      FirstAtAppend(rs, r, k);
    }
    forall k | k in Ids(rs) ensures FirstAt(rs, k) < |rs| { FirstAtAppend(rs, r, k); }
  }

  lemma OrderNext(m: Merge, r: Result)
    requires SameKeys(m)
    ensures r.denseRank.Some? ==>
              AddDense(m, r).merged.order == if r.id in m.merged.order then m.merged.order else m.merged.order + [r.id]
    ensures r.sparseRank.Some? ==>
              AddSparse(m, r).merged.order == if r.id in m.merged.order then m.merged.order else m.merged.order + [r.id]
  {
  }

  lemma {:induction false} MergedAsMet(dense: seq<Result>, sparse: seq<Result>)
    requires Dense(dense) && Sparse(sparse)
    ensures AsMet(AfterSparse(dense, sparse).merged.order, dense + sparse)
    decreases |sparse|, |dense|
  {
    hide AsMet, AddDense, AddSparse, SameKeys;
    if sparse != [] {
      var before, r := sparse[..|sparse| - 1], sparse[|sparse| - 1];
      MergeKeys(dense, before);
      MergedAsMet(dense, before);
      assert r in sparse;
      OrderNext(AfterSparse(dense, before), r);
      AsMetNext(AfterSparse(dense, before).merged.order, dense + before, r);
      assert dense + sparse == (dense + before) + [r];
    } else if dense != [] {
      var before, r := dense[..|dense| - 1], dense[|dense| - 1];
      MergeKeys(before, []);
      MergedAsMet(before, []);
      assert r in dense;
      assert AfterSparse(before, []) == AfterDense(before) && AfterSparse(dense, []) == AfterDense(dense);
      OrderNext(AfterDense(before), r);
      assert before + [] == before;
      AsMetNext(AfterDense(before).merged.order, before, r);
      assert dense + [] == before + [r];
    } else {
      NothingMet();
    }
  }

  lemma NothingMet()
    ensures AsMet([], [] + [])
  {
  }

  /** Chunks of equal score come in the order in which the searches found them, the
      dense search's first. */
  lemma FusionTies(dense: seq<Result>, sparse: seq<Result>, i: nat, j: nat)
    requires Dense(dense) && Sparse(sparse)
    requires i < j < |Fuse(dense, sparse)| && Fuse(dense, sparse)[i].score == Fuse(dense, sparse)[j].score
    ensures FirstAt(dense + sparse, Fuse(dense, sparse)[i].id) < FirstAt(dense + sparse, Fuse(dense, sparse)[j].id)
  {
    hide FirstAt, SortByScore;
    MergeKeys(dense, sparse);
    MergedAsMet(dense, sparse);
    MergeAccounts(dense, sparse);
    var m := AfterSparse(dense, sparse);
    var rs := Scored(m, m.merged.order);
    var pos := SortRanks(rs);
    SortSorts(rs);
    assert Ahead(rs, pos[i], pos[j]);
    forall a | 0 <= a < |rs| ensures rs[a].id == m.merged.order[a] {
      assert m.merged.order[a] in m.merged.order;
      ScoredEntry(m, dense, sparse, m.merged.order[a]);
    }
  }
}
