/** Detections of one stretch of text that overlap: what comes back, and when
    it is the text. */
module OverlappingSpans {
  import opened OrderedDict
  import opened Text
  import opened PiiVault

  // ---------- texts without '[': no proviso on tokens is needed ----------

  /** Every token is bracketed and no opening bracket is read. */
  ghost predicate NoOpening(cells: seq<Cell>) {
    && '[' !in Plain(cells)
    && forall c | c in cells && c.Tk? :: Bracketed(c.token)
  }

  lemma NoOpeningAppend(a: seq<Cell>, b: seq<Cell>)
    requires NoOpening(a) && NoOpening(b)
    ensures NoOpening(a + b)
  {
    hide Bracketed;
    FlatAppend(a, b);
  }

  lemma NoOpeningChars(s: string)
    requires '[' !in s
    ensures NoOpening(Chars(s))
  {
    FlatChars(s);
  }

  lemma NoOpeningTail(cells: seq<Cell>)
    requires cells != [] && NoOpening(cells)
    ensures NoOpening(cells[1..]) && (cells[0].Tk? ==> Bracketed(cells[0].token))
  {
    hide Bracketed;
    assert Plain(cells) == Hidden(cells[0]) + Plain(cells[1..]);
    assert cells[0] in cells;
  }

  lemma {:induction false} NoOpeningDrop(cells: seq<Cell>, k: nat)
    requires NoOpening(cells)
    ensures NoOpening(Drop(cells, k))
    decreases |cells|
  {
    hide Bracketed, NoOpening;
    if k != 0 && cells != [] {
      NoOpeningTail(cells);
      var shown := Shown(cells[0]);
      if |shown| <= k {
        NoOpeningDrop(cells[1..], k - |shown|);
      } else {
        CutHasNoOpening(cells[0], k);
        NoOpeningChars(shown[k..]);
        NoOpeningAppend(Chars(shown[k..]), cells[1..]);
      }
    }
  }

  lemma CutHasNoOpening(c: Cell, k: nat)
    requires c.Tk? ==> Bracketed(c.token)
    requires 0 < k < |Shown(c)|
    ensures '[' !in Shown(c)[k..]
  {
    var t := Shown(c);
    forall i | 0 <= i < |t| - k ensures t[k..][i] != '[' {
      assert t[k..][i] == t[k + i];
    }
  }

  lemma NoOpeningToken(token: string, original: string)
    requires Bracketed(token) && '[' !in original
    ensures NoOpening([Tk(token, original)])
  {
    hide Bracketed;
    assert Plain([Tk(token, original)]) == original + [];
  }

  lemma NoOpeningOver(text: string, cells: seq<Cell>, p: nat, s: Span, token: string)
    requires s.start <= p <= |text| && s.start <= s.end <= |text|
    requires NoOpening(cells) && Bracketed(token) && '[' !in text
    ensures NoOpening(Over(text, cells, p, s, token))
  {
    hide Bracketed;
    hide NoOpening;
    var original := text[s.start..s.end];
    NoOpeningToken(token, original);
    if s.end <= p {
      NoOpeningChars(text[s.end..p]);
      NoOpeningAppend(Chars(text[s.end..p]), cells);
      NoOpeningAppend([Tk(token, original)], Chars(text[s.end..p]) + cells);
    } else {
      NoOpeningDrop(cells, s.end - p);
      NoOpeningAppend([Tk(token, original)], Drop(cells, s.end - p));
    }
  }

  lemma {:induction false} NoOpeningFrom(text: string, ss: seq<Span>, counters: map<string, nat>, p: nat,
                                         cells: seq<Cell>)
    requires Falling(text, ss, p) && p <= |text| && NoOpening(cells) && '[' !in text
    ensures NoOpening(CellsFrom(text, ss, counters, p, cells))
    decreases |ss|
  {
    hide Bracketed, NoOpening, Token, PrefixOf, Over;
    if ss == [] {
      NoOpeningChars(text[..p]);
      NoOpeningAppend(Chars(text[..p]), cells);
    } else {
      var s, q := ss[0], PrefixOf(ss[0].entity);
      var n := Count(counters, q) + 1;
      TokenBracketed(q, n);
      NoOpeningOver(text, cells, p, s, Token(q, n));
      NoOpeningFrom(text, ss[1..], counters[q := n], s.start, Over(text, cells, p, s, Token(q, n)));
    }
  }

  /** A text without '[', whatever was detected in it and however the detections
      overlap: unmasking with the vault of its session gives the plain reading of
      its cells, so the text comes back exactly when that reading is the text. */
  lemma RestoredIffReadingIsText(text: string, spans: seq<Span>, vault: Vault, order: seq<string>)
    requires InRange(text, spans) && '[' !in text && IndexBound(vault)
    requires forall t | t in Mask(text, spans).vault.at ::
               t in vault.at && vault.at[t] == Mask(text, spans).vault.at[t]
    requires forall t :: t in order <==> t in vault.at
    ensures Tokens(order, vault.at)
    ensures UnmaskWith(order, vault.at, Mask(text, spans).masked) == Plain(CellsOf(text, spans))
    ensures UnmaskWith(order, vault.at, Mask(text, spans).masked) == text <==> Plain(CellsOf(text, spans)) == text
  {
    hide Bracketed, Mask, UnmaskWith, CellsFrom, Occurs, Plain;
    assert '[' !in Plain(CellsOf(text, spans)) by {
      ReadingHasNoOpening(text, spans);
    }
    BoundIsBracketed(vault);
    forall t | t in vault.at ensures !Occurs(Plain(CellsOf(text, spans)), t) {
      NoBracketNoToken(Plain(CellsOf(text, spans)), t);
    }
    AnyMaskRead(text, spans, vault, order);
  }

  lemma ReadingHasNoOpening(text: string, spans: seq<Span>)
    requires InRange(text, spans) && '[' !in text
    ensures '[' !in Plain(CellsOf(text, spans))
  {
    hide Bracketed, CellsFrom;
    SortFalls(text, spans);
    if text != [] {
      NoOpeningFrom(text, SortByStart(spans), map[], |text|, []);
    }
  }

  // ---------- one overlapping pair among other detections ----------

  /** Where the last of the spans starts, or `p` if there are none. */
  function Edge(ss: seq<Span>, p: nat): nat { if ss == [] then p else ss[|ss| - 1].start }

  /** The counters of a call once the spans are masked. */
  function Tally(counters: map<string, nat>, ss: seq<Span>): map<string, nat>
    decreases |ss|
  {
    if ss == [] then counters
    else Tally(counters[PrefixOf(ss[0].entity) := Count(counters, PrefixOf(ss[0].entity)) + 1], ss[1..])
  }

  function NextToken(counters: map<string, nat>, s: Span): string {
    Token(PrefixOf(s.entity), Count(counters, PrefixOf(s.entity)) + 1)
  }

  /** Two overlapping detections, `x` masked first and `y` next, with any others,
      disjoint from both and from each other, behind and before them. */
  ghost predicate Pair(text: string, spans: seq<Span>, right: seq<Span>, x: Span, y: Span, left: seq<Span>) {
    && SortByStart(spans) == right + ([x, y] + left)
    && Descending(right, |text|)
    && x.start < x.end <= Edge(right, |text|)
    && y.start <= x.start < y.end <= Edge(right, |text|)
    && Descending(left, y.start)
  }

  /** The token of the span masked first: the one that gets cut. */
  function FirstToken(right: seq<Span>, x: Span): string {
    NextToken(Tally(map[], right), x)
  }

  /** Whole tokens that stand for something. */
  ghost predicate Whole(cells: seq<Cell>) {
    forall c | c in cells && c.Tk? :: Bracketed(c.token) && c.original != []
  }

  lemma WholeOver(text: string, cells: seq<Cell>, p: nat, s: Span, token: string)
    requires s.start < s.end <= p <= |text| && Whole(cells) && Bracketed(token)
    ensures Whole(Over(text, cells, p, s, token)) && Over(text, cells, p, s, token) != []
  {
    hide Bracketed;
    var over := Over(text, cells, p, s, token);
    assert forall c | c in over && c.Tk? :: c == Tk(token, text[s.start..s.end]) || c in cells;
  }

  lemma EdgeOfRest(ss: seq<Span>, p: nat)
    ensures Edge(ss, p) == if ss == [] then p else Edge(ss[1..], ss[0].start)
  {
    if ss != [] && ss[1..] == [] { assert |ss| == 1; }
  }

  /** The disjoint detections behind the pair leave the text before them as it was. */
  lemma {:induction false} AfterOthers(text: string, right: seq<Span>, rest: seq<Span>, counters: map<string, nat>,
                                       p: nat, cells: seq<Cell>)
    returns (behind: seq<Cell>)
    requires Descending(right, p) && p <= |text| && Falling(text, rest, Edge(right, p)) && Whole(cells)
    ensures Edge(right, p) <= p && Falling(text, right + rest, p) && Whole(behind)
    ensures CellsFrom(text, right + rest, counters, p, cells)
         == CellsFrom(text, rest, Tally(counters, right), Edge(right, p), behind)
    ensures text[..Edge(right, p)] + Plain(behind) == text[..p] + Plain(cells)
    ensures if right == [] then behind == cells else behind != []
    decreases |right|
  {
    hide Plain, PrefixOf, Token, Over, Whole, Bracketed, Edge;
    EdgeOfRest(right, p);
    if right == [] {
      assert right + rest == rest;
      behind := cells;
    } else {
      var s, q := right[0], PrefixOf(right[0].entity);
      var n := Count(counters, q) + 1;
      TokenBracketed(q, n);
      WholeOver(text, cells, p, s, Token(q, n));
      OverIsPlain(text, cells, p, s, Token(q, n));
      behind := AfterOthers(text, right[1..], rest, counters[q := n], s.start, Over(text, cells, p, s, Token(q, n)));
      assert (right + rest)[1..] == right[1..] + rest;
    }
  }

  /** The second span cuts what is shown from `p` on up to its own end. */
  lemma SecondCells(text: string, y: Span, left: seq<Span>, counters: map<string, nat>, p: nat, first: seq<Cell>)
    requires y.start <= p < y.end <= |text| && Descending(left, y.start)
    ensures Falling(text, [y] + left, p)
    ensures Plain(CellsFrom(text, [y] + left, counters, p, first)) == text[..y.end] + Plain(Drop(first, y.end - p))
  {
    hide Plain, PrefixOf, Token, Drop;
    DescendsFalls(text, left, y.start);
    assert ([y] + left)[1..] == left;
    var r, cut := PrefixOf(y.entity), Drop(first, y.end - p);
    var n := Count(counters, r) + 1;
    var second := [Tk(Token(r, n), text[y.start..y.end])] + cut;
    CellsArePlain(text, left, counters[r := n], y.start, second);
    FlatPrepend(Tk(Token(r, n), text[y.start..y.end]), cut);
    Stretches(text, y.start, y.end, y.end, Plain(cut));
    assert text[y.end..y.end] + Plain(cut) == Plain(cut);
  }

  lemma PairCells(text: string, x: Span, y: Span, left: seq<Span>, counters: map<string, nat>, p: nat,
                  behind: seq<Cell>)
    requires x.start < x.end <= p && y.start <= x.start < y.end <= p <= |text| && Descending(left, y.start)
    ensures Falling(text, [x, y] + left, p)
    ensures var first := Tk(NextToken(counters, x), text[x.start..x.end]);
            Plain(CellsFrom(text, [x, y] + left, counters, p, behind))
            == text[..y.end] + Plain(Drop([first] + (Chars(text[x.end..p]) + behind), y.end - x.start))
  {
    hide Plain, PrefixOf, Token, Drop, Descending;
    assert ([x, y] + left)[1..] == [y] + left;
    var q := PrefixOf(x.entity);
    var n := Count(counters, q) + 1;
    SecondCells(text, y, left, counters[q := n], x.start, Over(text, behind, p, x, Token(q, n)));
  }

  /** What a pair reads back as: all up to the end of the second span, then what
      that span left over of the first token and of what is shown behind it. */
  lemma PairReads(text: string, spans: seq<Span>, right: seq<Span>, x: Span, y: Span, left: seq<Span>)
    returns (behind: seq<Cell>)
    requires InRange(text, spans) && Pair(text, spans, right, x, y, left)
    ensures var p := Edge(right, |text|);
            && p <= |text| && Plain(behind) == text[p..] && Whole(behind) && (right == [] <==> behind == [])
            && Plain(CellsOf(text, spans)) == text[..y.end]
               + Plain(Drop([Tk(FirstToken(right, x), text[x.start..x.end])] + (Chars(text[x.end..p]) + behind),
                            y.end - x.start))
  {
    hide Plain, PrefixOf, Token, Drop, Descending, Bracketed;
    var p := Edge(right, |text|);
    EdgeWithin(text, right, |text|);
    PairCells(text, x, y, left, map[], p, []);
    behind := AfterOthers(text, right, [x, y] + left, map[], |text|, []);
    PairCells(text, x, y, left, Tally(map[], right), p, behind);
    NothingHidden();
    assert (text[..p] + Plain(behind))[p..] == Plain(behind) && (text[..|text|] + [])[p..] == text[p..];
  }

  lemma {:induction false} EdgeWithin(text: string, ss: seq<Span>, p: nat)
    requires Descending(ss, p)
    ensures Edge(ss, p) <= p
  {
    if ss != [] { EdgeWithin(text, ss[1..], ss[0].start); }
  }

  /** Swallowing something of what follows always shows: a token that is cut
      leaves its closing bracket, anything else shortens the text. */
  lemma {:induction false} DropLoses(cells: seq<Cell>, k: nat)
    requires k > 0 && cells != [] && Whole(cells)
    ensures ']' in Plain(Drop(cells, k)) || |Plain(Drop(cells, k))| < |Plain(cells)|
    decreases |cells|
  {
    hide Bracketed;
    var c, shown, rest := cells[0], Shown(cells[0]), cells[1..];
    assert c in cells;
    assert |Hidden(c)| > 0;
    if |shown| <= k {
      if rest != [] && k > |shown| { DropLoses(rest, k - |shown|); }
    } else {
      CutCloses(c.token, k);
      FlatAppend(Chars(shown[k..]), rest);
      FlatChars(shown[k..]);
    }
  }

  lemma CutCloses(t: string, k: nat)
    requires Bracketed(t) && k < |t|
    ensures ']' in t[k..]
  {
    assert t[k..][|t| - k - 1] == ']';
  }

  /** At the end of the text the first token must fit into its stretch; elsewhere
      it must be exactly as long, and what the second span does not cover of it
      must read like the text there. */
  predicate Fits(text: string, x: Span, y: Span, t: string)
    requires x.start < x.end <= |text| && x.start < y.end <= |text|
  {
    if y.end == |text| then |t| <= x.end - x.start
    else |t| == x.end - x.start && (x.end <= y.end || t[y.end - x.start..] == text[y.end..x.end])
  }

  lemma SameTail(x: string, y: string, tail: string)
    requires |x| == |y|
    ensures x + tail == y + tail <==> x == y
  {
    assert (x + tail)[..|x|] == x && (y + tail)[..|y|] == y;
  }

  lemma CutPlain(c: Cell, tail: seq<Cell>, k: nat)
    requires c.Tk? && 0 < k < |c.token|
    ensures Plain(Drop([c] + tail, k)) == c.token[k..] + Plain(tail)
  {
    hide Plain, Chars;
    assert ([c] + tail)[1..] == tail;
    FlatAppend(Chars(c.token[k..]), tail);
    FlatChars(c.token[k..]);
  }

  /** The second span ends within the first token: the rest of it stays. */
  lemma CutFits(text: string, x: Span, y: Span, t: string, tail: seq<Cell>)
    requires x.start < x.end <= |text| && x.start < y.end <= |text| && Plain(tail) == text[x.end..]
    requires y.end - x.start < |t|
    ensures Plain(Drop([Tk(t, text[x.start..x.end])] + tail, y.end - x.start)) == text[y.end..] <==> Fits(text, x, y, t)
  {
    hide Plain, Drop;
    var k := y.end - x.start;
    CutPlain(Tk(t, text[x.start..x.end]), tail, k);
    var rest := t[k..] + text[x.end..];
    assert |rest| == |t| - k + |text| - x.end;
    if |t| == x.end - x.start {
      assert text[y.end..] == text[y.end..x.end] + text[x.end..];
      SameTail(t[k..], text[y.end..x.end], text[x.end..]);
    }
  }

  lemma DropToken(c: Cell, tail: seq<Cell>, k: nat)
    requires 0 < |Shown(c)| <= k
    ensures Drop([c] + tail, k) == Drop(tail, k - |Shown(c)|)
  {
    hide Chars;
    assert ([c] + tail)[1..] == tail;
  }

  lemma SwallowedPlain(text: string, x: Span, y: Span, t: string, p: nat, behind: seq<Cell>)
    requires x.start < x.end <= p && x.start < y.end <= p <= |text| && Plain(behind) == text[p..]
    requires t != [] && |t| <= y.end - x.start
    ensures Plain(Drop([Tk(t, text[x.start..x.end])] + (Chars(text[x.end..p]) + behind), y.end - x.start))
            == var j := y.end - x.start - |t|;
               if j <= p - x.end then text[x.end + j..] else Plain(Drop(behind, j - (p - x.end)))
  {
    hide Plain, Drop, Chars;
    var gap, j := text[x.end..p], y.end - x.start - |t|;
    DropToken(Tk(t, text[x.start..x.end]), Chars(gap) + behind, y.end - x.start);
    DropPlain(gap, behind, j);
    if j <= |gap| {
      assert gap[j..] + text[p..] == text[x.end + j..];
    }
  }

  /** The second span covers the whole token, and what is shown behind it by as
      much as the token is shorter. */
  lemma SwallowFits(text: string, x: Span, y: Span, t: string, p: nat, behind: seq<Cell>)
    requires x.start < x.end <= p && x.start < y.end <= p <= |text| && Plain(behind) == text[p..]
    requires Whole(behind) && (behind == [] || ']' !in text)
    requires t != [] && |t| <= y.end - x.start
    ensures var shown := [Tk(t, text[x.start..x.end])] + (Chars(text[x.end..p]) + behind);
            Plain(Drop(shown, y.end - x.start)) == text[y.end..] <==> Fits(text, x, y, t)
  {
    hide Whole, Plain, Drop, Chars;
    SwallowedPlain(text, x, y, t, p, behind);
    var j, gap := y.end - x.start - |t|, p - x.end;
    if j <= gap {
      SameSuffix(text, x.end + j, y.end);
    } else if behind == [] {
      NothingLeft(j - gap);
      assert |text[p..]| == 0;
    } else {
      SomethingBehind(behind);
      DropLoses(behind, j - gap);
      NotThere(Plain(Drop(behind, j - gap)), text, y.end, p);
    }
  }

  lemma NothingLeft(k: nat)
    ensures Plain([]) == [] && Plain(Drop([], k)) == []
  {
  }

  lemma SomethingBehind(cells: seq<Cell>)
    requires cells != [] && Whole(cells)
    ensures Plain(cells) != []
  {
    assert cells[0] in cells;
  }

  lemma SameSuffix(text: string, i: nat, j: nat)
    requires i <= |text| && j <= |text|
    ensures text[i..] == text[j..] <==> i == j
  {
    assert |text[i..]| == |text| - i && |text[j..]| == |text| - j;
  }

  lemma NotThere(s: string, text: string, d: nat, p: nat)
    requires d <= p <= |text| && ']' !in text && (']' in s || |s| < |text[p..]|)
    ensures s != text[d..]
  {
  }

  lemma {:induction false} DropChars(s: string, rest: seq<Cell>, j: nat)
    ensures Drop(Chars(s) + rest, j) == if j < |s| then Chars(s[j..]) + rest else Drop(rest, j - |s|)
    decreases |s|
  {
    if s == [] {
      assert Chars(s) + rest == rest;
    } else if j > 0 {
      assert (Chars(s) + rest)[1..] == Chars(s[1..]) + rest;
      DropChars(s[1..], rest, j - 1);
    }
  }

  lemma DropPlain(gap: string, behind: seq<Cell>, j: nat)
    ensures Plain(Drop(Chars(gap) + behind, j))
            == if j <= |gap| then gap[j..] + Plain(behind) else Plain(Drop(behind, j - |gap|))
  {
    hide Plain, Chars, Drop;
    DropChars(gap, behind, j);
    if j < |gap| {
      FlatAppend(Chars(gap[j..]), behind);
      FlatChars(gap[j..]);
    } else {
      NoDrop(behind);
    }
  }

  lemma NoDrop(cells: seq<Cell>)
    ensures Drop(cells, 0) == cells
  {
  }

  /** Two overlapping detections of any kinds and ends, among any others that are
      disjoint, in a text without '[': the exact condition for the round trip. */
  lemma DoubleDetection(text: string, spans: seq<Span>, right: seq<Span>, x: Span, y: Span, left: seq<Span>,
                        vault: Vault, order: seq<string>)
    requires InRange(text, spans) && Pair(text, spans, right, x, y, left)
    requires '[' !in text && (right == [] || ']' !in text)
    requires IndexBound(vault) && (forall t :: t in order <==> t in vault.at)
    requires forall t | t in Mask(text, spans).vault.at ::
               t in vault.at && vault.at[t] == Mask(text, spans).vault.at[t]
    ensures Tokens(order, vault.at) && x.end <= |text| && y.end <= |text|
    ensures UnmaskWith(order, vault.at, Mask(text, spans).masked) == text <==> Fits(text, x, y, FirstToken(right, x))
  {
    hide Mask, UnmaskWith, CellsOf, Plain, Drop, Token, PrefixOf, Fits, Whole, Bracketed, Descending, IndexBound;
    var p, t := Edge(right, |text|), FirstToken(right, x);
    RestoredIffReadingIsText(text, spans, vault, order);
    var behind := PairReads(text, spans, right, x, y, left);
    TokenBracketed(PrefixOf(x.entity), Count(Tally(map[], right), PrefixOf(x.entity)) + 1);
    TokenNotEmpty(t);
    var cut := Plain(Drop([Tk(t, text[x.start..x.end])] + (Chars(text[x.end..p]) + behind), y.end - x.start));
    SplitAt(text, y.end, cut);
    if y.end - x.start < |t| {
      FlatAppend(Chars(text[x.end..p]), behind);
      FlatChars(text[x.end..p]);
      assert text[x.end..p] + text[p..] == text[x.end..];
      CutFits(text, x, y, t, Chars(text[x.end..p]) + behind);
    } else {
      SwallowFits(text, x, y, t, p, behind);
    }
  }

  lemma TokenNotEmpty(t: string)
    requires Bracketed(t)
    ensures t != []
  {
  }

  lemma SplitAt(text: string, d: nat, s: string)
    requires d <= |text|
    ensures text[..d] + s == text <==> s == text[d..]
  {
    assert text[..d] + text[d..] == text;
    assert (text[..d] + s)[d..] == s;
  }

  // ---------- any number of detections that end at the same point ----------

  /** What is swallowed behind `b`, in characters, once all the spans and one more
      around them are masked; negative if something of a token is left over. */
  function Surplus(xs: seq<Span>, b: nat, counters: map<string, nat>): int
    decreases |xs|
  {
    if xs == [] then 0
    else
      var k := Surplus(xs[1..], b, Tally(counters, xs[..1]));
      if k < 0 then k else k + (b - xs[0].start) - |NextToken(counters, xs[0])|
  }

  /** The spans end at `b`, none starts after the one before it. */
  ghost predicate Nested(xs: seq<Span>, b: nat, p: nat) {
    xs == [] || (xs[0].start <= p && xs[0].start < xs[0].end == b && Nested(xs[1..], b, xs[0].start))
  }

  /** Detections `xs` that end where `y`, which starts first, ends too, with any
      others, disjoint from them and from each other, behind and before them. */
  ghost predicate Pile(text: string, spans: seq<Span>, right: seq<Span>, xs: seq<Span>, y: Span, left: seq<Span>) {
    && SortByStart(spans) == right + (xs + ([y] + left))
    && Descending(right, |text|) && y.end <= Edge(right, |text|)
    && xs != [] && Nested(xs + [y], y.end, y.end)
    && Descending(left, y.start)
  }

  lemma {:induction false} DropTwice(cells: seq<Cell>, i: nat, j: nat)
    ensures Drop(Drop(cells, i), j) == Drop(cells, i + j)
    decreases |cells|
  {
    hide Chars;
    if i != 0 && cells != [] {
      var shown, rest := Shown(cells[0]), cells[1..];
      if |shown| <= i {
        DropTwice(rest, i - |shown|, j);
      } else {
        DropChars(shown[i..], rest, j);
        if i + j < |shown| { assert shown[i..][j..] == shown[i + j..]; }
      }
    }
  }

  lemma NextSurplus(xs: seq<Span>, b: nat, counters: map<string, nat>)
    ensures Surplus(xs, b, counters)
            == if xs == [] then 0
               else var k := Surplus(xs[1..], b, Tally(counters, xs[..1]));
                    if k < 0 then k else k + (b - xs[0].start) - |NextToken(counters, xs[0])|
  {
  }

  lemma OneMore(text: string, xs: seq<Span>, rest: seq<Span>, counters: map<string, nat>, p: nat, b: nat,
                cells: seq<Cell>)
    requires xs != [] && xs[0].start <= p <= b <= |text| && xs[0].start < xs[0].end == b
    requires Falling(text, xs[1..] + rest, xs[0].start)
    ensures Falling(text, xs + rest, p)
    ensures CellsFrom(text, xs + rest, counters, p, cells)
         == CellsFrom(text, xs[1..] + rest, Tally(counters, xs[..1]), xs[0].start,
                      [Tk(NextToken(counters, xs[0]), text[xs[0].start..b])] + Drop(cells, b - p))
  {
    hide PrefixOf, Token, Drop;
    assert (xs + rest)[1..] == xs[1..] + rest && xs[..1] == [xs[0]] && xs[..1][1..] == [];
    if b == p {
      NoDrop(cells);
      assert Chars(text[b..p]) + cells == cells;
    }
  }

  lemma DropLeading(c: Cell, tail: seq<Cell>, k: nat)
    requires c.Tk? && Bracketed(c.token) && k > 0
    ensures if |c.token| <= k then Drop([c] + tail, k) == Drop(tail, k - |c.token|)
        else ']' in Plain(Drop([c] + tail, k))
  {
    hide Plain, Drop;
    if k < |c.token| {
      CutPlain(c, tail, k);
      CutCloses(c.token, k);
    } else {
      DropToken(c, tail, k);
    }
  }

  /** What a pile reads back as: all up to its end, then what is left of the
      cells shown from there once the surplus is swallowed. */
  lemma {:induction false} PileCells(text: string, xs: seq<Span>, y: Span, left: seq<Span>, counters: map<string, nat>,
                                     p: nat, cells: seq<Cell>)
    returns (rest: string)
    requires Nested(xs + [y], y.end, p) && p <= y.end <= |text| && (xs != [] || p < y.end) && Descending(left, y.start)
    ensures Falling(text, xs + ([y] + left), p)
    ensures Plain(CellsFrom(text, xs + ([y] + left), counters, p, cells)) == text[..y.end] + rest
    ensures var k := Surplus(xs, y.end, counters);
            if k < 0 then ']' in rest else rest == Plain(Drop(cells, y.end - p + k))
    decreases |xs|
  {
    hide Plain, Drop, PrefixOf, Token, Descending, CellsFrom, Surplus, Bracketed;
    NextSurplus(xs, y.end, counters);
    if xs == [] {
      assert [] + ([y] + left) == [y] + left && ([] + [y])[0] == y;
      SecondCells(text, y, left, counters, p, cells);
      rest := Plain(Drop(cells, y.end - p));
    } else {
      var x, t, b := xs[0], NextToken(counters, xs[0]), y.end;
      assert (xs + [y])[0] == x && (xs + [y])[1..] == xs[1..] + [y];
      var over := [Tk(t, text[x.start..b])] + Drop(cells, b - p);
      rest := PileCells(text, xs[1..], y, left, Tally(counters, xs[..1]), x.start, over);
      OneMore(text, xs, [y] + left, counters, p, b, cells);
      var k := Surplus(xs[1..], b, Tally(counters, xs[..1]));
      if k >= 0 {
        TokenBracketed(PrefixOf(x.entity), Count(counters, PrefixOf(x.entity)) + 1);
        DropLeading(Tk(t, text[x.start..b]), Drop(cells, b - p), b - x.start + k);
        if |t| <= b - x.start + k { DropTwice(cells, b - p, b - x.start + k - |t|); }
      }
    }
  }

  lemma Rebase(text: string, ss: seq<Span>, counters: map<string, nat>, p: nat, b: nat, cells: seq<Cell>)
    requires ss != [] && ss[0].start <= ss[0].end <= b <= p <= |text| && Falling(text, ss, p)
    ensures Falling(text, ss, b)
    ensures CellsFrom(text, ss, counters, p, cells) == CellsFrom(text, ss, counters, b, Chars(text[b..p]) + cells)
  {
    hide PrefixOf, Token;
    assert Chars(text[ss[0].end..p]) + cells == Chars(text[ss[0].end..b]) + (Chars(text[b..p]) + cells);
  }

  /** What a pile of detections reads back as, over any other disjoint ones. */
  lemma PileReads(text: string, spans: seq<Span>, right: seq<Span>, xs: seq<Span>, y: Span, left: seq<Span>)
    returns (tail: seq<Cell>, rest: string)
    requires InRange(text, spans) && Pile(text, spans, right, xs, y, left)
    ensures y.end <= |text| && Plain(tail) == text[y.end..] && Whole(tail)
    ensures Plain(CellsOf(text, spans)) == text[..y.end] + rest
    ensures var k := Surplus(xs, y.end, Tally(map[], right));
            if k < 0 then ']' in rest else rest == Plain(Drop(tail, k))
  {
    hide Plain, PrefixOf, Token, Drop, Descending, Bracketed, CellsFrom, Surplus, Nested, Whole;
    var p, b, ss, counted := Edge(right, |text|), y.end, xs + ([y] + left), Tally(map[], right);
    EdgeWithin(text, right, |text|);
    rest := PileCells(text, xs, y, left, counted, b, []);
    NothingWhole();
    FallsEarlier(text, ss, b, p);
    var behind := AfterOthers(text, right, ss, map[], |text|, []);
    FirstEnds(xs, y, left);
    Rebase(text, ss, counted, p, b, behind);
    tail := Chars(text[b..p]) + behind;
    rest := PileCells(text, xs, y, left, counted, b, tail);
    WholeTail(text[b..p], behind);
    FlatAppend(Chars(text[b..p]), behind);
    FlatChars(text[b..p]);
    assert text[..p] + Plain(behind) == text[..|text|] + [] == text;
    assert text[p..] == Plain(behind) by { SplitAt(text, p, Plain(behind)); }
    assert text[b..] == text[b..p] + text[p..];
  }

  lemma NothingWhole()
    ensures Whole([]) && Plain([]) == []
  {
  }

  lemma WholeTail(gap: string, behind: seq<Cell>)
    requires Whole(behind)
    ensures Whole(Chars(gap) + behind)
  {
    hide Bracketed;
    assert forall c | c in Chars(gap) + behind && c.Tk? :: c in behind;
  }

  lemma FallsEarlier(text: string, ss: seq<Span>, b: nat, p: nat)
    requires Falling(text, ss, b) && b <= p
    ensures Falling(text, ss, p)
  {
  }

  lemma FirstEnds(xs: seq<Span>, y: Span, left: seq<Span>)
    requires xs != [] && Nested(xs + [y], y.end, y.end)
    ensures (xs + ([y] + left))[0] == xs[0] && xs[0].start < xs[0].end == y.end
  {
    assert (xs + [y])[0] == xs[0];
  }

  /** Any number of detections that end at the same point, among any others that
      are disjoint, in a text without brackets: restored exactly when no token is
      left over and nothing behind is swallowed, or there was nothing behind. */
  lemma NestedDetections(text: string, spans: seq<Span>, right: seq<Span>, xs: seq<Span>, y: Span, left: seq<Span>,
                         vault: Vault, order: seq<string>)
    requires InRange(text, spans) && Pile(text, spans, right, xs, y, left)
    requires '[' !in text && ']' !in text
    requires IndexBound(vault) && (forall t :: t in order <==> t in vault.at)
    requires forall t | t in Mask(text, spans).vault.at ::
               t in vault.at && vault.at[t] == Mask(text, spans).vault.at[t]
    ensures Tokens(order, vault.at)
    ensures var k := Surplus(xs, y.end, Tally(map[], right));
            UnmaskWith(order, vault.at, Mask(text, spans).masked) == text <==> k == 0 || (k > 0 && y.end == |text|)
  {
    hide Mask, UnmaskWith, CellsOf, Plain, Drop, Surplus, Pile, Whole, IndexBound, Tally;
    RestoredIffReadingIsText(text, spans, vault, order);
    var tail, rest := PileReads(text, spans, right, xs, y, left);
    SplitAt(text, y.end, rest);
    var k := Surplus(xs, y.end, Tally(map[], right));
    assert |text[y.end..]| == |text| - y.end;
    if k == 0 {
      NoDrop(tail);
    } else if k > 0 {
      if tail == [] {
        NothingLeft(k);
      } else {
        SomethingBehind(tail);
        DropLoses(tail, k);
        NotThere(rest, text, y.end, y.end);
      }
    } else {
      NotThere(rest, text, y.end, y.end);
    }
    assert rest == text[y.end..] <==> k == 0 || (k > 0 && y.end == |text|);
  }

  // ---------- numbers the patterns of the source find more than once ----------

  lemma TallyOne(counters: map<string, nat>, x: Span)
    ensures Tally(counters, [x]) == counters[PrefixOf(x.entity) := Count(counters, PrefixOf(x.entity)) + 1]
  {
    assert [x][1..] == [];
  }

  lemma TokenLength(prefix: string, n: nat)
    ensures |Token(prefix, n)| == |prefix| + 3 + |Digits(n)|
  {
  }

  lemma PairSurplus(x: Span, b: nat, counters: map<string, nat>)
    ensures Surplus([x], b, counters) == b - x.start - |NextToken(counters, x)|
  {
    NextSurplus([x], b, counters);
    NextSurplus([], b, Tally(counters, [x][..1]));
    assert [x][1..] == [];
  }

  /** A number with its country code and a separator is a phone number and, without
      code and separator, an account number: it never comes back, because the
      account's token is longer than the ten digits. */
  lemma CountryCodeIsLost(text: string, p: nat, spans: seq<Span>, right: seq<Span>, left: seq<Span>,
                          vault: Vault, order: seq<string>)
    requires InRange(text, spans) && '[' !in text && ']' !in text
    requires Pile(text, spans, right, [Span(p + 4, p + 14, "ACCOUNT_NUMBER")], Span(p, p + 14, "PHONE_NUMBER"), left)
    requires IndexBound(vault) && (forall t :: t in order <==> t in vault.at)
    requires forall t | t in Mask(text, spans).vault.at ::
               t in vault.at && vault.at[t] == Mask(text, spans).vault.at[t]
    ensures Tokens(order, vault.at) && UnmaskWith(order, vault.at, Mask(text, spans).masked) != text
  {
    hide Mask, UnmaskWith, Pile, Tally, IndexBound, Surplus, CellsOf;
    var x, y := Span(p + 4, p + 14, "ACCOUNT_NUMBER"), Span(p, p + 14, "PHONE_NUMBER");
    NestedDetections(text, spans, right, [x], y, left, vault, order);
    PairSurplus(x, p + 14, Tally(map[], right));
    assert |NextToken(Tally(map[], right), x)| >= 11;
  }

  /** A plain mobile number is a phone number and an account number at once. With
      the account masked first it never comes back; with the phone masked first,
      among the first nine phones, it comes back only at the end of the text. */
  lemma MobileNumberRestored(text: string, p: nat, first: string, second: string, spans: seq<Span>, right: seq<Span>,
                             left: seq<Span>, vault: Vault, order: seq<string>)
    requires InRange(text, spans) && '[' !in text && ']' !in text
    requires (first, second) in {("ACCOUNT_NUMBER", "PHONE_NUMBER"), ("PHONE_NUMBER", "ACCOUNT_NUMBER")}
    requires Pile(text, spans, right, [Span(p, p + 10, first)], Span(p, p + 10, second), left)
    requires Count(Tally(map[], right), "PHONE") < 9
    requires IndexBound(vault) && (forall t :: t in order <==> t in vault.at)
    requires forall t | t in Mask(text, spans).vault.at ::
               t in vault.at && vault.at[t] == Mask(text, spans).vault.at[t]
    ensures Tokens(order, vault.at)
    ensures UnmaskWith(order, vault.at, Mask(text, spans).masked) == text
            <==> first == "PHONE_NUMBER" && p + 10 == |text|
  {
    hide Mask, UnmaskWith, Pile, Tally, IndexBound, Surplus, CellsOf;
    var x, y := Span(p, p + 10, first), Span(p, p + 10, second);
    NestedDetections(text, spans, right, [x], y, left, vault, order);
    PairSurplus(x, p + 10, Tally(map[], right));
    var counted := Tally(map[], right);
    assert first == "PHONE_NUMBER" ==> |NextToken(counted, x)| == 9;
    assert first == "ACCOUNT_NUMBER" ==> |NextToken(counted, x)| >= 11;
  }

  lemma TwinSurplus(p: nat, first: string, second: string, counted: map<string, nat>)
    requires (first, second) in {("ACCOUNT_NUMBER", "AADHAAR_NUMBER"), ("AADHAAR_NUMBER", "ACCOUNT_NUMBER")}
    requires Count(counted, "ACCOUNT") < 9 && Count(counted, "AADHAAR") < 9
    ensures Surplus([Span(p + 1, p + 13, first), Span(p + 1, p + 13, second)], p + 13, counted) == 2
  {
    hide Surplus, Token, Tally;
    var xs := [Span(p + 1, p + 13, first), Span(p + 1, p + 13, second)];
    var next := Tally(counted, [xs[0]]);
    assert xs[1..] == [xs[1]] && xs[..1] == [xs[0]];
    TallyOne(counted, xs[0]);
    NextSurplus(xs, p + 13, counted);
    PairSurplus(xs[1], p + 13, next);
    TokenLength(PrefixOf(first), Count(counted, PrefixOf(first)) + 1);
    TokenLength(PrefixOf(second), Count(next, PrefixOf(second)) + 1);
    assert |PrefixOf(first)| == 7 && |PrefixOf(second)| == 7 && PrefixOf(first) != PrefixOf(second);
  }

  /** Without a separator the twelve digits behind the plus sign are an Aadhaar
      number and an account number as well. Among the first nine of each kind such
      a number comes back exactly at the end of the text; elsewhere the two
      characters behind it are swallowed. */
  lemma UnseparatedNumberRestored(text: string, p: nat, first: string, second: string, spans: seq<Span>,
                                  right: seq<Span>, left: seq<Span>, vault: Vault, order: seq<string>)
    requires InRange(text, spans) && '[' !in text && ']' !in text
    requires (first, second) in {("ACCOUNT_NUMBER", "AADHAAR_NUMBER"), ("AADHAAR_NUMBER", "ACCOUNT_NUMBER")}
    requires Pile(text, spans, right, [Span(p + 1, p + 13, first), Span(p + 1, p + 13, second)],
                  Span(p, p + 13, "PHONE_NUMBER"), left)
    requires Count(Tally(map[], right), "ACCOUNT") < 9 && Count(Tally(map[], right), "AADHAAR") < 9
    requires IndexBound(vault) && (forall t :: t in order <==> t in vault.at)
    requires forall t | t in Mask(text, spans).vault.at ::
               t in vault.at && vault.at[t] == Mask(text, spans).vault.at[t]
    ensures Tokens(order, vault.at)
    ensures UnmaskWith(order, vault.at, Mask(text, spans).masked) == text <==> p + 13 == |text|
  {
    hide Mask, UnmaskWith, Pile, IndexBound, Surplus, CellsOf, Token;
    var xs, y := [Span(p + 1, p + 13, first), Span(p + 1, p + 13, second)], Span(p, p + 13, "PHONE_NUMBER");
    NestedDetections(text, spans, right, xs, y, left, vault, order);
    TwinSurplus(p, first, second, Tally(map[], right));
  }
}
