/** The paragraph-aware chunker: in-order greedy packing under a token limit. */
module Chunker {

  type Group = seq<string>

  /** What a chunk may hold: `count` tokens per piece, at most `limit` when
      pieces are merged, and a `lone` piece is never merged with another. */
  datatype Rule = Rule(count: string -> nat, limit: nat, lone: string -> bool) {
    function Sum(g: Group): nat {
      if g == [] then 0 else count(g[0]) + Sum(g[1..])
    }

    /** One piece of any size, or several mergeable ones within the limit. */
    ghost predicate Legal(g: Group) {
      |g| == 1 || (|g| > 1 && Sum(g) <= limit && forall p | p in g :: !lone(p))
    }

    /** Next-fit: keep filling `current` while it stays legal. */
    ghost function Pack(pieces: seq<string>, current: Group): seq<Group>
      decreases |pieces|
    {
      if pieces == [] then (if current == [] then [] else [current])
      else if Legal(current + [pieces[0]]) then Pack(pieces[1..], current + [pieces[0]])
      else [current] + Pack(pieces[1..], [pieces[0]])
    }

    lemma {:induction false} SumAppend(a: Group, b: Group)
      ensures Sum(a + b) == Sum(a) + Sum(b)
    {
      if a == [] {
        assert a + b == b;
      } else {
        assert (a + b)[1..] == a[1..] + b;
        SumAppend(a[1..], b);
      }
    }

    /** Any stretch of a legal group is legal. */
    lemma LegalSlice(a: Group, mid: Group, b: Group)
      requires Legal(a + mid + b) && mid != []
      ensures Legal(mid)
    {
      SumAppend(a + mid, b);
      SumAppend(a, mid);
      assert forall p | p in mid :: p in a + mid + b;
    }

    /** Nothing is lost, nothing is reordered, and every chunk is legal. */
    lemma {:induction false} PackConserves(pieces: seq<string>, current: Group)
      requires current == [] || Legal(current)
      ensures Flatten(Pack(pieces, current)) == current + pieces
      ensures forall g | g in Pack(pieces, current) :: Legal(g)
      decreases |pieces|
    {
      if pieces == [] {
        assert current + pieces == current;
        if current != [] {
          assert Flatten([current]) == current + Flatten([]);
        }
      } else {
        assert current + pieces == (current + [pieces[0]]) + pieces[1..];
        if Legal(current + [pieces[0]]) {
          PackConserves(pieces[1..], current + [pieces[0]]);
        } else {
          PackConserves(pieces[1..], [pieces[0]]);
          assert [pieces[0]] + pieces[1..] == pieces;
        }
      }
    }

    /** Greedy against a rival partition of `open + pieces` whose first group
        starts with `open`. Either the rival has already closed one group more
        (`behind == 1`), or greedy's pending group is the end of the rival's. */
    lemma {:induction false} GreedyStaysAhead(pieces: seq<string>, current: Group, open: Group, rival: seq<Group>,
                                              behind: nat)
      requires current == [] || Legal(current)
      requires Flatten(rival) == open + pieces && forall g | g in rival :: Legal(g)
      requires rival == [] || open <= rival[0]
      requires behind == 1 || (behind == 0 && |current| <= |open| && open[|open| - |current|..] == current)
      ensures |Pack(pieces, current)| <= |rival| + behind
      decreases |pieces|
    {
      if pieces == [] {
        if rival == [] {
          assert Flatten(rival) == [];
        }
      } else {
        var x, rest := pieces[0], pieces[1..];
        assert open + pieces == (open + [x]) + rest;
        assert rival != [];
        var g, later := rival[0], rival[1..];
        RivalNext(pieces, open, rival);
        if |open| < |g| {
          // The rival keeps its group open for x.
          if Legal(current + [x]) {
            if behind == 0 {
              SuffixExtends(open, current, x);
            }
            GreedyStaysAhead(rest, current + [x], open + [x], rival, behind);
          } else {
            if behind == 0 {
              SuffixIsLegal(open, current, x, g);
            }
            GreedyStaysAhead(rest, [x], open + [x], rival, 0);
          }
        } else {
          // The rival closes its group and starts the next one with x.
          if Legal(current + [x]) {
            GreedyStaysAhead(rest, current + [x], [x], later, 1);
          } else {
            GreedyStaysAhead(rest, [x], [x], later, behind);
          }
        }
      }
    }

    lemma RivalNext(pieces: seq<string>, open: Group, rival: seq<Group>)
      requires pieces != [] && rival != [] && open <= rival[0]
      requires Flatten(rival) == open + pieces && forall g | g in rival :: Legal(g)
      ensures |open| < |rival[0]| ==> open + [pieces[0]] <= rival[0]
      ensures |open| == |rival[0]| ==>
                && Flatten(rival[1..]) == [pieces[0]] + pieces[1..]
                && (rival[1..] == [] || [pieces[0]] <= rival[1..][0])
    {
      var g, later := rival[0], rival[1..];
      var all := open + pieces;
      assert all == g + Flatten(later);
      if |open| < |g| {
        assert g[|open|] == all[|open|] == pieces[0];
      } else {
        assert g == open;
        assert Flatten(later) == all[|g|..] == pieces;
        assert pieces == [pieces[0]] + pieces[1..];
        if later != [] {
          assert Legal(later[0]);
          assert Flatten(later)[0] == later[0][0];
        }
      }
    }

    lemma SuffixExtends(open: Group, current: Group, x: string)
      requires |current| <= |open| && open[|open| - |current|..] == current
      ensures (open + [x])[|open| - |current|..] == current + [x]
    {
    }

    lemma SuffixIsLegal(open: Group, current: Group, x: string, g: Group)
      requires |current| <= |open| && open[|open| - |current|..] == current
      requires open + [x] <= g && Legal(g)
      ensures Legal(current + [x])
    {
      var a, b := open[..|open| - |current|], g[|open| + 1..];
      assert g == a + (current + [x]) + b;
      LegalSlice(a, current + [x], b);
    }

    /** Greedy is optimal: no in-order partition into legal chunks is smaller. */
    lemma PackIsOptimal(pieces: seq<string>, rival: seq<Group>)
      requires Flatten(rival) == pieces && forall g | g in rival :: Legal(g)
      ensures |Pack(pieces, [])| <= |rival|
    {
      assert [] + pieces == pieces;
      GreedyStaysAhead(pieces, [], [], rival, 0);
    }

    /** Group `i` could not have taken the piece that opens the next one. */
    ghost predicate Closed(gs: seq<Group>, i: nat)
      requires i + 1 < |gs|
    {
      gs[i + 1] != [] && !Legal(gs[i] + [gs[i + 1][0]])
    }

    ghost predicate Full(gs: seq<Group>) { forall i: nat | i + 1 < |gs| :: Closed(gs, i) }

    lemma {:induction false} PackIsFull(pieces: seq<string>, current: Group)
      ensures Full(Pack(pieces, current))
      ensures current != [] ==> Pack(pieces, current) != [] && current <= Pack(pieces, current)[0]
      decreases |pieces|
    {
      hide Legal;
      if pieces != [] {
        if Legal(current + [pieces[0]]) {
          PackIsFull(pieces[1..], current + [pieces[0]]);
        } else {
          var later := Pack(pieces[1..], [pieces[0]]);
          PackIsFull(pieces[1..], [pieces[0]]);
          forall i: nat | i + 1 < |later| + 1 ensures Closed([current] + later, i) {
            assert i > 0 ==> Closed(later, i - 1);
          }
        }
      }
    }

    lemma {:induction false} FullIsPack(pieces: seq<string>, current: Group, gs: seq<Group>)
      requires Flatten(gs) == current + pieces && Full(gs) && forall g | g in gs :: Legal(g)
      requires if current == [] then true else gs != [] && current <= gs[0]
      ensures gs == Pack(pieces, current)
      decreases |pieces|
    {
      hide Legal;
      NoneEmpty(gs);
      if pieces == [] {
        assert current + pieces == current;
        if gs != [] {
          assert gs[0] in gs && Flatten(gs) == gs[0] + Flatten(gs[1..]);
          assert |gs[0]| >= |current| && |Flatten(gs[1..])| == 0;
          NoneEmpty(gs[1..]);
          assert gs[1..] == [] && gs[0][..|current|] == current && gs[0] == current;
          assert gs == [gs[0]];
        }
      } else {
        var x, rest := pieces[0], pieces[1..];
        assert current + pieces == (current + [x]) + rest && gs != [] && gs[0] in gs;
        RivalNext(pieces, current, gs);
        if |current| < |gs[0]| {
          PrefixIsLegal(current + [x], gs[0]);
          FullIsPack(rest, current + [x], gs);
        } else {
          assert gs[0] == current && [x] + rest == pieces;
          var later := gs[1..];
          assert later != [];
          assert later[0] == gs[1];
          assert Closed(gs, 0);
          forall i: nat | i + 1 < |later| ensures Closed(later, i) {
            assert Closed(gs, i + 1);
          }
          FullIsPack(rest, [x], later);
        }
      }
    }

    lemma PrefixIsLegal(a: Group, g: Group)
      requires a != [] && a <= g && Legal(g)
      ensures Legal(a)
    {
      assert g == [] + a + g[|a|..];
      LegalSlice([], a, g[|a|..]);
    }

    lemma NoneEmpty(gs: seq<Group>)
      requires forall g | g in gs :: Legal(g)
      ensures forall g | g in gs :: g != []
      ensures Flatten(gs) == [] <==> gs == []
    {
      if gs != [] { assert gs[0] in gs; }
    }

    /** Greedy packing is the only partition in order into legal groups none of
        which could have taken one more piece. */
    lemma PackExactly(pieces: seq<string>, gs: seq<Group>)
      ensures gs == Pack(pieces, [])
              <==> Flatten(gs) == pieces && Full(gs) && forall g | g in gs :: Legal(g)
    {
      hide Legal;
      assert [] + pieces == pieces;
      PackIsFull(pieces, []);
      PackConserves(pieces, []);
      if Flatten(gs) == pieces && Full(gs) && forall g | g in gs :: Legal(g) {
        FullIsPack(pieces, [], gs);
      }
    }

    lemma LoneIsClosed(piece: string, pieces: seq<string>)
      requires lone(piece)
      ensures Pack(pieces, [piece]) == [[piece]] + Pack(pieces, [])
    {
      if pieces != [] {
        assert piece in [piece] + [pieces[0]];
        assert [] + [pieces[0]] == [pieces[0]];
      }
    }
  }

  function Flatten(gs: seq<Group>): seq<string> {
    if gs == [] then [] else gs[0] + Flatten(gs[1..])
  }

  function Join(sep: string, g: Group): string {
    if g == [] then [] else if |g| == 1 then g[0] else g[0] + sep + Join(sep, g[1..])
  }

  function JoinAll(sep: string, gs: seq<Group>): seq<string> {
    if gs == [] then [] else [Join(sep, gs[0])] + JoinAll(sep, gs[1..])
  }

  // ---------- the two packing loops ----------

  /** Sentences of one oversized paragraph: any two may be merged. */
  function SentenceRule(count: string -> nat, maxTokens: nat): Rule {
    Rule(count, maxTokens, _ => false)
  }

  /** Paragraphs: one above the hard maximum is never merged. */
  function ParagraphRule(count: string -> nat, targetTokens: nat, maxTokens: nat): Rule {
    Rule(count, targetTokens, p => count(p) > maxTokens)
  }

  function Tokens(count: string -> nat, g: Group): nat {
    if g == [] then 0 else count(g[0]) + Tokens(count, g[1..])
  }

  /** One sentence, or several within the hard maximum. */
  ghost predicate SentenceGroup(g: Group, maxTokens: nat, count: string -> nat) {
    g != [] && (|g| == 1 || Tokens(count, g) <= maxTokens)
  }

  /** All sentences in order, and no group with room for the next sentence. */
  ghost predicate SentenceGroups(gs: seq<Group>, sentences: seq<string>, maxTokens: nat, count: string -> nat) {
    && Flatten(gs) == sentences && (forall i | 0 <= i < |gs| :: SentenceGroup(gs[i], maxTokens, count))
    && forall i | 0 <= i < |gs| - 1 :: Tokens(count, gs[i]) + count(gs[i + 1][0]) > maxTokens
  }

  /** One paragraph, or several within the target, none above the hard maximum. */
  ghost predicate ParagraphGroup(g: Group, plan: Plan) {
    && g != []
    && (|g| == 1
        || (Tokens(plan.count, g) <= plan.targetTokens && forall p | p in g :: plan.count(p) <= plan.maxTokens))
  }

  /** All paragraphs in order; a group ends where the next paragraph would exceed
      the target, or beside an oversized one. */
  ghost predicate ParagraphGroups(gs: seq<Group>, paragraphs: seq<string>, plan: Plan) {
    && Flatten(gs) == paragraphs && (forall i | 0 <= i < |gs| :: ParagraphGroup(gs[i], plan))
    && forall i | 0 <= i < |gs| - 1 ::
         || Tokens(plan.count, gs[i]) + plan.count(gs[i + 1][0]) > plan.targetTokens
         || plan.count(gs[i][0]) > plan.maxTokens || plan.count(gs[i + 1][0]) > plan.maxTokens
  }

  lemma {:induction false} SumIsTokens(rule: Rule, g: Group)
    ensures rule.Sum(g) == Tokens(rule.count, g)
  {
    if g != [] { SumIsTokens(rule, g[1..]); }
  }

  lemma SentenceLegal(g: Group, maxTokens: nat, count: string -> nat)
    ensures SentenceRule(count, maxTokens).Legal(g) <==> SentenceGroup(g, maxTokens, count)
  {
    SumIsTokens(SentenceRule(count, maxTokens), g);
  }

  lemma ParagraphLegal(g: Group, plan: Plan)
    ensures plan.Paragraphs().Legal(g) <==> ParagraphGroup(g, plan)
  {
    SumIsTokens(plan.Paragraphs(), g);
  }

  /** Sentences are packed as the conditions on `SentenceGroups` say, in no other way. */
  lemma SentencesExactly(gs: seq<Group>, sentences: seq<string>, maxTokens: nat, count: string -> nat)
    ensures gs == SentenceRule(count, maxTokens).Pack(sentences, [])
            <==> SentenceGroups(gs, sentences, maxTokens, count)
  {
    var rule := SentenceRule(count, maxTokens);
    rule.PackExactly(sentences, gs);
    hide SentenceRule, Rule.Legal, SentenceGroup;
    forall g ensures rule.Legal(g) <==> SentenceGroup(g, maxTokens, count) { SentenceLegal(g, maxTokens, count); }
    forall i: nat | i + 1 < |gs| && SentenceGroup(gs[i], maxTokens, count) && SentenceGroup(gs[i + 1], maxTokens, count)
      ensures gs[i + 1] != [] && gs[i] != []
      ensures !rule.Closed(gs, i)
              <==> Tokens(count, gs[i]) + count(gs[i + 1][0]) <= maxTokens
    {
      SentenceExtends(gs[i], gs[i + 1], maxTokens, count);
    }
  }

  lemma SentenceExtends(g: Group, h: Group, maxTokens: nat, count: string -> nat)
    requires SentenceGroup(g, maxTokens, count) && SentenceGroup(h, maxTokens, count)
    ensures g != [] && h != []
    ensures SentenceGroup(g + [h[0]], maxTokens, count) <==> Tokens(count, g) + count(h[0]) <= maxTokens
  {
    TokensAppend(count, g, h[0]);
  }

  lemma {:induction false} TokensAppend(count: string -> nat, g: Group, x: string)
    ensures Tokens(count, g + [x]) == Tokens(count, g) + count(x)
  {
    if g == [] {
      assert [] + [x] == [x] && [x][1..] == [];
    } else {
      TokensAppend(count, g[1..], x);
      assert (g + [x])[1..] == g[1..] + [x];
    }
  }

  /** Paragraphs are packed as the conditions on `ParagraphGroups` say, in no other way. */
  lemma ParagraphsExactly(gs: seq<Group>, paragraphs: seq<string>, plan: Plan)
    ensures gs == plan.Paragraphs().Pack(paragraphs, []) <==> ParagraphGroups(gs, paragraphs, plan)
  {
    var rule := plan.Paragraphs();
    rule.PackExactly(paragraphs, gs);
    hide ParagraphRule, Rule.Legal, ParagraphGroup;
    forall g ensures rule.Legal(g) <==> ParagraphGroup(g, plan) { ParagraphLegal(g, plan); }
    forall i: nat | i + 1 < |gs| && ParagraphGroup(gs[i], plan) && ParagraphGroup(gs[i + 1], plan)
      ensures gs[i + 1] != [] && gs[i] != []
      ensures !rule.Closed(gs, i)
              <==> && Tokens(plan.count, gs[i]) + plan.count(gs[i + 1][0]) <= plan.targetTokens
                   && plan.count(gs[i][0]) <= plan.maxTokens && plan.count(gs[i + 1][0]) <= plan.maxTokens
    {
      ParagraphExtends(gs[i], gs[i + 1], plan);
    }
  }

  lemma ParagraphExtends(g: Group, h: Group, plan: Plan)
    requires ParagraphGroup(g, plan) && ParagraphGroup(h, plan)
    ensures g != [] && h != []
    ensures ParagraphGroup(g + [h[0]], plan)
            <==> && Tokens(plan.count, g) + plan.count(h[0]) <= plan.targetTokens
                 && plan.count(g[0]) <= plan.maxTokens && plan.count(h[0]) <= plan.maxTokens
  {
    TokensAppend(plan.count, g, h[0]);
    var longer := g + [h[0]];
    assert longer[0] == g[0] && longer[|g|] == h[0];
    assert forall p | p in longer :: p in g || p == h[0];
    assert |g| == 1 ==> g == [g[0]];
  }

  ghost function SentenceChunks(sentences: seq<string>, maxTokens: nat, count: string -> nat): seq<string> {
    JoinAll(" ", SentenceRule(count, maxTokens).Pack(sentences, []))
  }

  method SplitAtSentences(sentences: seq<string>, maxTokens: nat, count: string -> nat) returns (result: seq<string>)
    ensures result == SentenceChunks(sentences, maxTokens, count)
    ensures exists parts :: SentenceGroups(parts, sentences, maxTokens, count) && Blanked(result, parts)
  {
    hide Blanked, SentenceGroups;
    ghost var rule := SentenceRule(count, maxTokens);
    result := [];
    var current: Group, tokens := [], 0;
    for i := 0 to |sentences|
      invariant tokens == rule.Sum(current) && (current == [] || rule.Legal(current))
      invariant result + JoinAll(" ", rule.Pack(sentences[i..], current)) == SentenceChunks(sentences, maxTokens, count)
    {
      var n := count(sentences[i]);
      rule.SumAppend(current, [sentences[i]]);
      assert sentences[i..][1..] == sentences[i + 1..];
      assert rule.Legal(current + [sentences[i]]) <==> current == [] || tokens + n <= maxTokens;
      if tokens + n > maxTokens && current != [] {
        ghost var later := rule.Pack(sentences[i + 1..], [sentences[i]]);
        assert ([current] + later)[1..] == later;
        assert [] + [sentences[i]] == [sentences[i]];
        result := result + [Join(" ", current)];
        current, tokens := [], 0;
      }
      current, tokens := current + [sentences[i]], tokens + n;
    }
    if current != [] {
      result := result + [Join(" ", current)];
    }
    ghost var parts := SentencesAreKept(sentences, maxTokens, count);
  }

  /** A document's splitting parameters. */
  datatype Plan = Plan(targetTokens: nat, maxTokens: nat, count: string -> nat, sentences: string -> seq<string>) {
    function Paragraphs(): Rule { ParagraphRule(count, targetTokens, maxTokens) }

    function Sentences(): Rule { SentenceRule(count, maxTokens) }

    /** The text of a packed paragraph group: joined, or split again if oversized. */
    ghost function GroupTexts(g: Group): seq<string> {
      if |g| == 1 && Paragraphs().lone(g[0]) then SentenceChunks(sentences(g[0]), maxTokens, count)
      else [Join("\n\n", g)]
    }

    ghost function Texts(gs: seq<Group>): seq<string> {
      if gs == [] then [] else GroupTexts(gs[0]) + Texts(gs[1..])
    }

    ghost function Rest(paragraphs: seq<string>, current: Group): seq<string> {
      Texts(Paragraphs().Pack(paragraphs, current))
    }

    /** Closing the pending group emits its text. */
    lemma RestCloses(g: Group, x: string, later: seq<string>)
      requires g != [] && !Paragraphs().Legal(g + [x])
      ensures Rest([x] + later, g) == GroupTexts(g) + Rest(later, [x])
    {
      assert ([x] + later)[1..] == later;
      var gs := Paragraphs().Pack(later, [x]);
      assert ([g] + gs)[1..] == gs;
    }

    lemma RestFits(current: Group, x: string, later: seq<string>)
      requires Paragraphs().Legal(current + [x])
      ensures Rest([x] + later, current) == Rest(later, current + [x])
    {
      assert ([x] + later)[1..] == later;
    }

    lemma RestLone(x: string, later: seq<string>)
      requires Paragraphs().lone(x)
      ensures Rest(later, [x]) == GroupTexts([x]) + Rest(later, [])
    {
      Paragraphs().LoneIsClosed(x, later);
      var gs := Paragraphs().Pack(later, []);
      assert ([[x]] + gs)[1..] == gs;
    }

    /** A pending group of mergeable paragraphs. */
    ghost predicate Pending(g: Group) {
      (g == [] || Paragraphs().Legal(g)) && forall p | p in g :: !Paragraphs().lone(p)
    }

    function Flush(g: Group): seq<string> {
      if g == [] then [] else [Join("\n\n", g)]
    }

    lemma OversizedStep(g: Group, x: string, later: seq<string>)
      requires Pending(g) && count(x) > maxTokens
      ensures Rest([x] + later, g) == Flush(g) + (SentenceChunks(sentences(x), maxTokens, count) + Rest(later, []))
    {
      assert x in g + [x];
      if g == [] {
        assert g + [x] == [x];
        RestFits(g, x, later);
      } else {
        RestCloses(g, x, later);
      }
      RestLone(x, later);
    }

    lemma MergeableStep(g: Group, x: string, later: seq<string>)
      requires Pending(g) && count(x) <= maxTokens
      ensures Paragraphs().Sum(g + [x]) == Paragraphs().Sum(g) + count(x)
      ensures var full := g != [] && Paragraphs().Sum(g) + count(x) > targetTokens;
              && Pending(if full then [x] else g + [x])
              && Rest([x] + later, g) == if full then Flush(g) + Rest(later, [x]) else Rest(later, g + [x])
    {
      Paragraphs().SumAppend(g, [x]);
      assert g == [] ==> g + [x] == [x];
      if g != [] && Paragraphs().Sum(g) + count(x) > targetTokens {
        RestCloses(g, x, later);
      } else {
        RestFits(g, x, later);
      }
    }

    lemma LastStep(g: Group)
      requires Pending(g)
      ensures Rest([], g) == Flush(g)
    {
      if g != [] {
        assert [g][1..] == [] && g[0] in g;
        assert Texts([g]) == GroupTexts(g) + Texts([]);
      }
    }
  }

  method ChunkDocument(paragraphs: seq<string>, plan: Plan) returns (merged: seq<string>)
    ensures merged == plan.Texts(plan.Paragraphs().Pack(paragraphs, []))
    ensures exists gs :: ParagraphGroups(gs, paragraphs, plan) && AllWritten(merged, gs, plan)
  {
    hide AllWritten, ParagraphGroups;
    merged := [];
    var current: Group, tokens := [], 0;
    ghost var whole := plan.Rest(paragraphs, []);
    for i := 0 to |paragraphs|
      invariant plan.Pending(current) && tokens == plan.Paragraphs().Sum(current)
      invariant merged + plan.Rest(paragraphs[i..], current) == whole
    {
      var para := paragraphs[i];
      ghost var later := paragraphs[i + 1..];
      assert paragraphs[i..] == [para] + later;
      var n := plan.count(para);
      if n > plan.maxTokens {
        plan.OversizedStep(current, para, later);
        var split := SplitAtSentences(plan.sentences(para), plan.maxTokens, plan.count);
        Regroup(merged, plan.Flush(current), split, plan.Rest(later, []));
        merged := merged + plan.Flush(current) + split;
        current, tokens := [], 0;
      } else {
        plan.MergeableStep(current, para, later);
        if tokens + n > plan.targetTokens && current != [] {
          Regroup(merged, plan.Flush(current), [], plan.Rest(later, [para]));
          merged := merged + plan.Flush(current);
          current, tokens := [para], n;
        } else {
          current, tokens := current + [para], tokens + n;
        }
      }
    }
    plan.LastStep(current);
    merged := merged + plan.Flush(current);
    DocumentIsKept(paragraphs, plan);
  }

  lemma Regroup(a: seq<string>, b: seq<string>, c: seq<string>, d: seq<string>)
    ensures a + (b + (c + d)) == a + b + c + d
    ensures c == [] ==> a + (b + d) == a + b + d
  {
  }

  // ---------- the whole document ----------

  /** Chunks beyond one that the oversized paragraphs are split into. */
  ghost function Extra(pieces: seq<string>, rule: Rule, split: string -> nat): int {
    if pieces == [] then 0
    else (if rule.lone(pieces[0]) then split(pieces[0]) - 1 else 0) + Extra(pieces[1..], rule, split)
  }

  lemma {:induction false} ExtraAppend(a: seq<string>, b: seq<string>, rule: Rule, split: string -> nat)
    ensures Extra(a + b, rule, split) == Extra(a, rule, split) + Extra(b, rule, split)
  {
    if a == [] {
      assert a + b == b;
    } else {
      assert (a + b)[1..] == a[1..] + b;
      ExtraAppend(a[1..], b, rule, split);
    }
  }

  lemma {:induction false} NoExtra(pieces: seq<string>, rule: Rule, split: string -> nat)
    requires forall p | p in pieces :: !rule.lone(p)
    ensures Extra(pieces, rule, split) == 0
  {
    if pieces != [] {
      NoExtra(pieces[1..], rule, split);
    }
  }

  lemma {:induction false} JoinAllLength(sep: string, gs: seq<Group>)
    ensures |JoinAll(sep, gs)| == |gs|
  {
    if gs != [] {
      JoinAllLength(sep, gs[1..]);
    }
  }

  lemma {:induction false} TextsLength(gs: seq<Group>, plan: Plan, split: string -> nat)
    requires forall g | g in gs :: plan.Paragraphs().Legal(g)
    requires forall p | p in Flatten(gs) && plan.Paragraphs().lone(p) ::
               split(p) == |plan.Sentences().Pack(plan.sentences(p), [])|
    ensures |plan.Texts(gs)| == |gs| + Extra(Flatten(gs), plan.Paragraphs(), split)
  {
    if gs != [] {
      var g, rule := gs[0], plan.Paragraphs();
      TextsLength(gs[1..], plan, split);
      ExtraAppend(g, Flatten(gs[1..]), rule, split);
      if |g| == 1 && rule.lone(g[0]) {
        assert g[0] in Flatten(gs);
        JoinAllLength(" ", plan.Sentences().Pack(plan.sentences(g[0]), []));
        assert Extra(g[1..], rule, split) == 0;
      } else {
        assert rule.Legal(g) && (|g| == 1 ==> g == [g[0]]);
        assert forall p | p in g :: !rule.lone(p);
        NoExtra(g, rule, split);
      }
    }
  }

  lemma {:induction false} ExtraMonotone(pieces: seq<string>, rule: Rule, a: string -> nat, b: string -> nat)
    requires forall p | p in pieces && rule.lone(p) :: a(p) <= b(p)
    ensures Extra(pieces, rule, a) <= Extra(pieces, rule, b)
  {
    if pieces != [] {
      ExtraMonotone(pieces[1..], rule, a, b);
    }
  }

  function Sizes(split: string -> seq<Group>): string -> nat { p => |split(p)| }

  ghost function GreedySplit(plan: Plan): string -> seq<Group> {
    p => plan.Sentences().Pack(plan.sentences(p), [])
  }

  /** No other way of merging paragraphs in order and of cutting each oversized
      paragraph into legal runs of its sentences produces fewer chunks. */
  lemma DocumentIsOptimal(paragraphs: seq<string>, plan: Plan, rival: seq<Group>, rivalSplit: string -> seq<Group>)
    requires Flatten(rival) == paragraphs && forall g | g in rival :: ParagraphGroup(g, plan)
    requires forall p | p in paragraphs && plan.count(p) > plan.maxTokens ::
               && Flatten(rivalSplit(p)) == plan.sentences(p)
               && forall g | g in rivalSplit(p) :: SentenceGroup(g, plan.maxTokens, plan.count)
    ensures |plan.Texts(plan.Paragraphs().Pack(paragraphs, []))|
         <= |rival| + Extra(paragraphs, plan.Paragraphs(), Sizes(rivalSplit))
  {
    hide SentenceGroup, ParagraphGroup;
    var rule, greedy := plan.Paragraphs(), Sizes(GreedySplit(plan));
    rule.PackConserves(paragraphs, []);
    assert [] + paragraphs == paragraphs;
    TextsLength(rule.Pack(paragraphs, []), plan, greedy);
    forall g | g in rival ensures rule.Legal(g) { ParagraphLegal(g, plan); }
    rule.PackIsOptimal(paragraphs, rival);
    forall p | p in paragraphs && rule.lone(p) ensures greedy(p) <= Sizes(rivalSplit)(p) {
      forall g | g in rivalSplit(p) ensures plan.Sentences().Legal(g) { SentenceLegal(g, plan.maxTokens, plan.count); }
      plan.Sentences().PackIsOptimal(plan.sentences(p), rivalSplit(p));
    }
    ExtraMonotone(paragraphs, rule, greedy, Sizes(rivalSplit));
  }

  // ---------- what text a chunk holds ----------

  /** Characters of the pieces together. */
  function Letters(g: Group): nat { if g == [] then 0 else |g[0]| + Letters(g[1..]) }

  /** Where piece `k` of a chunk starts: behind the pieces before it and one
      separator after each. */
  function Offset(g: Group, sep: string, k: nat): nat
    requires k <= |g|
  {
    Letters(g[..k]) + k * |sep|
  }

  /** The chunk is its pieces in order, unchanged, with one separator between
      consecutive ones and nothing else. */
  ghost predicate Holds(text: string, sep: string, g: Group) {
    && g != [] && |text| + |sep| == Letters(g) + |g| * |sep|
    && (forall k | 0 <= k < |g| ::
          Offset(g, sep, k) + |g[k]| <= |text| && text[Offset(g, sep, k)..Offset(g, sep, k) + |g[k]|] == g[k])
    && (forall k | 0 <= k < |g| - 1 ::
          && Offset(g, sep, k) + |g[k]| + |sep| <= |text|
          && text[Offset(g, sep, k) + |g[k]|..Offset(g, sep, k) + |g[k]| + |sep|] == sep)
  }

  lemma OffsetNext(g: Group, sep: string, k: nat)
    requires k < |g| && g != []
    ensures Offset(g, sep, 0) == 0
    ensures k > 0 ==> Offset(g, sep, k) == |g[0]| + |sep| + Offset(g[1..], sep, k - 1)
  {
    if k > 0 {
      assert g[..k][1..] == g[1..][..k - 1];
      assert k * |sep| == |sep| + (k - 1) * |sep|;
    }
  }

  lemma SliceBehind(a: string, b: string, i: nat, j: nat)
    requires i <= j <= |b|
    ensures (a + b)[|a| + i..|a| + j] == b[i..j]
  {
  }

  lemma {:induction false} JoinHolds(sep: string, g: Group)
    requires g != []
    ensures Holds(Join(sep, g), sep, g)
  {
    if |g| == 1 {
      OneHolds(sep, g);
    } else {
      JoinHolds(sep, g[1..]);
      OneMoreHolds(Join(sep, g[1..]), sep, g);
      assert g[0] + sep + Join(sep, g[1..]) == g[0] + (sep + Join(sep, g[1..]));
    }
  }

  lemma OneHolds(sep: string, g: Group)
    requires |g| == 1
    ensures Holds(g[0], sep, g)
  {
    OffsetNext(g, sep, 0);
    assert Letters(g) == |g[0]| + Letters([]);
    assert g[0][0..|g[0]|] == g[0];
  }

  lemma OneMoreHolds(rest: string, sep: string, g: Group)
    requires |g| > 1 && Holds(rest, sep, g[1..])
    ensures Holds(g[0] + (sep + rest), sep, g)
  {
    hide Offset, Letters;
    var text, head := g[0] + (sep + rest), g[0] + sep;
    assert text == head + rest;
    LettersFirst(g);
    assert |g| * |sep| == |sep| + |g[1..]| * |sep|;
    OffsetNext(g, sep, 0);
    forall k | 0 <= k < |g|
      ensures Offset(g, sep, k) + |g[k]| <= |text| && text[Offset(g, sep, k)..Offset(g, sep, k) + |g[k]|] == g[k]
    {
      OffsetNext(g, sep, k);
      if k > 0 {
        var at := Offset(g[1..], sep, k - 1);
        assert g[k] == g[1..][k - 1];
        SliceBehind(head, rest, at, at + |g[k]|);
      }
    }
    forall k | 0 <= k < |g| - 1
      ensures Offset(g, sep, k) + |g[k]| + |sep| <= |text|
      ensures text[Offset(g, sep, k) + |g[k]|..Offset(g, sep, k) + |g[k]| + |sep|] == sep
    {
      OffsetNext(g, sep, k);
      if k > 0 {
        var at := Offset(g[1..], sep, k - 1) + |g[k]|;
        assert g[k] == g[1..][k - 1];
        SliceBehind(head, rest, at, at + |sep|);
      } else {
        SliceBehind(g[0], sep + rest, 0, |sep|);
      }
    }
  }

  lemma LettersFirst(g: Group)
    requires g != []
    ensures Letters(g) == |g[0]| + Letters(g[1..])
  {
  }

  /** The chunks of one group: an oversized paragraph's sentences packed again, a
      blank apart, or one chunk with the paragraphs two line breaks apart. */
  ghost predicate Written(chunks: seq<string>, g: Group, plan: Plan) {
    if |g| == 1 && plan.count(g[0]) > plan.maxTokens then
      exists parts ::
        SentenceGroups(parts, plan.sentences(g[0]), plan.maxTokens, plan.count) && Blanked(chunks, parts)
    else
      |chunks| == 1 && Holds(chunks[0], "\n\n", g)
  }

  ghost predicate AllWritten(chunks: seq<string>, gs: seq<Group>, plan: Plan)
    decreases |gs|
  {
    if gs == [] then chunks == []
    else exists n :: 0 <= n <= |chunks| && Written(chunks[..n], gs[0], plan) && AllWritten(chunks[n..], gs[1..], plan)
  }

  lemma GroupIsWritten(g: Group, plan: Plan)
    requires ParagraphGroup(g, plan)
    ensures Written(plan.GroupTexts(g), g, plan)
  {
    hide Holds, Blanked, SentenceGroups;
    if |g| == 1 && plan.count(g[0]) > plan.maxTokens {
      var parts := SentencesAreKept(plan.sentences(g[0]), plan.maxTokens, plan.count);
    } else {
      JoinHolds("\n\n", g);
    }
  }

  lemma {:induction false} GroupsAreWritten(gs: seq<Group>, plan: Plan)
    requires forall g | g in gs :: ParagraphGroup(g, plan)
    ensures AllWritten(plan.Texts(gs), gs, plan)
  {
    hide Written, ParagraphGroup, Plan.GroupTexts;
    if gs != [] {
      var first, rest := plan.GroupTexts(gs[0]), plan.Texts(gs[1..]);
      assert gs[0] in gs && forall g | g in gs[1..] :: g in gs;
      GroupIsWritten(gs[0], plan);
      GroupsAreWritten(gs[1..], plan);
      assert (first + rest)[..|first|] == first && (first + rest)[|first|..] == rest;
    }
  }

  /** A document's chunks are its paragraphs, packed in order as described, every
      character of them and nothing but separators between; an oversized one is
      its sentences, packed the same way. */
  lemma DocumentIsKept(paragraphs: seq<string>, plan: Plan)
    ensures var gs := plan.Paragraphs().Pack(paragraphs, []);
            ParagraphGroups(gs, paragraphs, plan) && AllWritten(plan.Texts(gs), gs, plan)
  {
    hide AllWritten, ParagraphGroup;
    var gs := plan.Paragraphs().Pack(paragraphs, []);
    ParagraphsExactly(gs, paragraphs, plan);
    GroupsAreWritten(gs, plan);
  }

  ghost predicate Blanked(chunks: seq<string>, parts: seq<Group>) {
    |chunks| == |parts| && forall i | 0 <= i < |chunks| :: Holds(chunks[i], " ", parts[i])
  }

  lemma SentencesAreKept(sentences: seq<string>, maxTokens: nat, count: string -> nat) returns (parts: seq<Group>)
    ensures SentenceGroups(parts, sentences, maxTokens, count)
    ensures Blanked(SentenceChunks(sentences, maxTokens, count), parts)
  {
    hide Holds, SentenceRule;
    parts := SentenceRule(count, maxTokens).Pack(sentences, []);
    SentencesExactly(parts, sentences, maxTokens, count);
    JoinAllLength(" ", parts);
    forall i | 0 <= i < |parts| ensures Holds(JoinAll(" ", parts)[i], " ", parts[i]) {
      JoinAllAt(" ", parts, i);
      assert parts[i] in parts;
      JoinHolds(" ", parts[i]);
    }
  }

  lemma {:induction false} JoinAllAt(sep: string, gs: seq<Group>, i: nat)
    requires i < |gs|
    ensures i < |JoinAll(sep, gs)| && JoinAll(sep, gs)[i] == Join(sep, gs[i])
  {
    hide Join;
    if i > 0 { JoinAllAt(sep, gs[1..], i - 1); }
  }
}
