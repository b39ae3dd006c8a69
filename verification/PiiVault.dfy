/** The masker's token vault: masking detected spans, merging vaults per
    session, and restoring the originals by repeated replacement. */
module PiiVault {
  import opened OrderedDict
  import opened Text

  // ---------- masking ----------

  /** One detector result; spans of different kinds may overlap. */
  datatype Span = Span(start: nat, end: nat, entity: string)

  type Vault = Dict<string, string>

  function PrefixOf(entity: string): (p: string)
    ensures IsLabel(p)
  {
    match entity
    case "PERSON" => "PERSON"
    case "PHONE_NUMBER" => "PHONE"
    case "EMAIL_ADDRESS" => "EMAIL"
    case "PAN_NUMBER" => "PAN"
    case "AADHAAR_NUMBER" => "AADHAAR"
    case "ACCOUNT_NUMBER" => "ACCOUNT"
    case "LOCATION" => "LOCATION"
    case "NRP" => "PERSON"
    case "US_SSN" => "ID"
    case _ => "PII"
  }

  const ENTITIES: set<string> := {
    "PERSON", "PHONE_NUMBER", "EMAIL_ADDRESS", "PAN_NUMBER", "AADHAAR_NUMBER", "ACCOUNT_NUMBER", "LOCATION", "NRP",
    "US_SSN"
  }

  /** Only persons and groups of persons share a prefix, and every other kind of
      detection has the prefix the unlisted ones get. */
  lemma PrefixTellsKind(e: string, f: string)
    ensures PrefixOf(e) == PrefixOf(f) <==>
              || e == f
              || (e !in ENTITIES && f !in ENTITIES)
              || (e in {"PERSON", "NRP"} && f in {"PERSON", "NRP"})
  {
    assert |"PERSON"| == 6 && |"PHONE"| == |"EMAIL"| == 5 && |"PAN"| == |"PII"| == 3;
    assert |"AADHAAR"| == |"ACCOUNT"| == 7 && |"LOCATION"| == 8 && |"ID"| == 2;
    assert "PHONE"[0] != "EMAIL"[0] && "PAN"[1] != "PII"[1] && "AADHAAR"[1] != "ACCOUNT"[1];
  }

  /** `sorted(key=start, reverse=True)`: descending, equal starts in input order. */
  function InsertByStart(x: Span, ss: seq<Span>): seq<Span> {
    if ss == [] || ss[0].start <= x.start then [x] + ss
    else [ss[0]] + InsertByStart(x, ss[1..])
  }

  function SortByStart(ss: seq<Span>): seq<Span> {
    if ss == [] then [] else InsertByStart(ss[0], SortByStart(ss[1..]))
  }

  datatype Masking = Masking(masked: string, vault: Vault, counters: map<string, nat>)

  function Count(counters: map<string, nat>, p: string): nat {
    if p in counters then counters[p] else 0
  }

  function MaskSpan(text: string, m: Masking, s: Span): Masking {
    var prefix := PrefixOf(s.entity);
    var n := Count(m.counters, prefix) + 1;
    var token := Token(prefix, n);
    var original := From(Before(text, s.end), s.start);
    Masking(Before(m.masked, s.start) + token + From(m.masked, s.end),
            m.vault.Put(token, original),
            m.counters[prefix := n])
  }

  function MaskSpans(text: string, m: Masking, ss: seq<Span>): Masking
    decreases |ss|
  {
    if ss == [] then m else MaskSpans(text, MaskSpan(text, m, ss[0]), ss[1..])
  }

  /** The masked text and the vault `mask_text` hands back. */
  function Mask(text: string, spans: seq<Span>): Masking {
    if text == [] then Masking(text, Empty(), map[])
    else MaskSpans(text, Masking(text, Empty(), map[]), SortByStart(spans))
  }

  /** What `unmask` needs of a vault: every key is a bracketed token. */
  ghost predicate Tokens(order: seq<string>, at: map<string, string>) {
    forall t | t in order :: t in at && Bracketed(t)
  }

  function UnmaskWith(order: seq<string>, at: map<string, string>, s: string): string
    requires Tokens(order, at)
    decreases |order|
  {
    if order == [] then s
    else UnmaskWith(order[1..], at, Replace(s, order[0], at[order[0]]))
  }

  // ---------- masked text as cells ----------

  /** A masked text is a run of original characters and tokens standing for originals. */
  datatype Cell = Ch(c: char) | Tk(token: string, original: string)

  function Shown(c: Cell): string { if c.Ch? then [c.c] else c.token }

  function Hidden(c: Cell): string { if c.Ch? then [c.c] else c.original }

  function Flat(cells: seq<Cell>): string {
    if cells == [] then [] else Shown(cells[0]) + Flat(cells[1..])
  }

  function Plain(cells: seq<Cell>): string {
    if cells == [] then [] else Hidden(cells[0]) + Plain(cells[1..])
  }

  function Chars(s: string): (cells: seq<Cell>)
    ensures |cells| == |s| && forall i | 0 <= i < |s| :: cells[i] == Ch(s[i])
  {
    seq(|s|, i requires 0 <= i < |s| => Ch(s[i]))
  }

  /** Every cell standing for token `t` replaced by the characters it hides. */
  function Expand(cells: seq<Cell>, t: string): seq<Cell> {
    if cells == [] then []
    else (if cells[0].Tk? && cells[0].token == t then Chars(cells[0].original) else [cells[0]])
         + Expand(cells[1..], t)
  }

  /** Tokens of the cells are bracketed and bound by `at` to what they hide. */
  ghost predicate Bound(cells: seq<Cell>, at: map<string, string>) {
    forall c | c in cells && c.Tk? ::
      Bracketed(c.token) && c.token in at && at[c.token] == c.original
  }

  /** `t` starts at no plain character of the flattened cells. */
  ghost predicate Clear(cells: seq<Cell>, t: string) {
    cells == [] || (Clear(cells[1..], t) && (cells[0].Ch? ==> !StartsWith(Flat(cells), t)))
  }

  lemma {:induction false} FlatAppend(a: seq<Cell>, b: seq<Cell>)
    ensures Flat(a + b) == Flat(a) + Flat(b)
    ensures Plain(a + b) == Plain(a) + Plain(b)
  {
    if a == [] {
      assert a + b == b;
    } else {
      FlatAppend(a[1..], b);
      FlatPrepend(a[0], a[1..] + b);
      Regroup([a[0]], a[1..], b);
      assert a == [a[0]] + a[1..];
      Regroup(Shown(a[0]), Flat(a[1..]), Flat(b));
      Regroup(Hidden(a[0]), Plain(a[1..]), Plain(b));
    }
  }

  lemma FlatPrepend(c: Cell, cells: seq<Cell>)
    ensures Flat([c] + cells) == Shown(c) + Flat(cells)
    ensures Plain([c] + cells) == Hidden(c) + Plain(cells)
  {
    assert ([c] + cells)[1..] == cells;
  }

  lemma Regroup<T>(a: seq<T>, b: seq<T>, c: seq<T>)
    ensures a + (b + c) == (a + b) + c
  {
  }

  lemma {:induction false} FlatChars(s: string)
    ensures Flat(Chars(s)) == s && Plain(Chars(s)) == s
  {
    if s != [] {
      assert Chars(s)[1..] == Chars(s[1..]);
      FlatChars(s[1..]);
    }
  }

  /** A stretch of the flattened cells without '[' lies in plain characters. */
  lemma {:induction false} PlainWhereNoBracket(cells: seq<Cell>, x: string)
    requires x <= Flat(cells) && '[' !in x
    requires forall c | c in cells && c.Tk? :: Bracketed(c.token)
    ensures x <= Plain(cells)
  {
    hide Bracketed, Flat, Plain;
    if x != [] {
      FirstIsPlain(cells, x);
      PlainWhereNoBracket(cells[1..], x[1..]);
      PlainFirst(cells, x);
    }
  }

  lemma PlainFirst(cells: seq<Cell>, x: string)
    requires x != [] && cells != [] && cells[0] == Ch(x[0]) && x[1..] <= Plain(cells[1..])
    ensures x <= Plain(cells)
  {
    var s := Plain(cells[1..]);
    assert Plain(cells) == [x[0]] + s;
    hide Plain;
    assert x == [x[0]] + x[1..];
    PrefixOfCons(x[0], x[1..], s);
  }

  lemma FirstIsPlain(cells: seq<Cell>, x: string)
    requires x != [] && x <= Flat(cells) && x[0] != '['
    requires forall c | c in cells && c.Tk? :: Bracketed(c.token)
    ensures cells != [] && cells[0] == Ch(x[0]) && x[1..] <= Flat(cells[1..])
  {
    assert x[0] == Flat(cells)[0];
    assert cells[0] in cells;
    assert Flat(cells)[1..|x|] == x[1..];
  }

  lemma OpeningIsPlain(cells: seq<Cell>, t: string)
    requires Bracketed(t) && cells != [] && cells[0].Ch? && StartsWith(Flat(cells), t)
    requires forall c | c in cells && c.Tk? :: Bracketed(c.token)
    ensures StartsWith(Plain(cells), t)
  {
    NoOpeningInside(t);
    RestOfPrefix(cells, t);
    hide Bracketed, Flat, Plain;
    PlainWhereNoBracket(cells[1..], t[1..]);
    PlainFirst(cells, t);
  }

  lemma NoOpeningInside(t: string)
    requires Bracketed(t)
    ensures '[' !in t[1..]
  {
    forall i | 0 <= i < |t| - 1 ensures t[1..][i] != '[' { assert t[1..][i] == t[i + 1]; }
  }

  lemma RestOfPrefix(cells: seq<Cell>, t: string)
    requires cells != [] && cells[0].Ch? && t != [] && t <= Flat(cells)
    ensures t[1..] <= Flat(cells[1..]) && cells[0] == Ch(t[0])
  {
    assert Flat(cells)[..|t|][1..] == Flat(cells[1..])[..|t| - 1];
  }

  lemma PrefixOfCons(c: char, x: string, s: string)
    requires x <= s
    ensures StartsWith([c] + s, [c] + x)
  {
  }

  /** A token that opened at a plain character would be there in the original. */
  lemma {:induction false} AbsentIsClear(cells: seq<Cell>, t: string)
    requires Bracketed(t) && !Occurs(Plain(cells), t)
    requires forall c | c in cells && c.Tk? :: Bracketed(c.token)
    ensures Clear(cells, t)
  {
    if cells != [] {
      if Occurs(Plain(cells[1..]), t) {
        OccursInSuffix(Hidden(cells[0]), Plain(cells[1..]), t);
      }
      AbsentIsClear(cells[1..], t);
      if cells[0].Ch? && StartsWith(Flat(cells), t) {
        OpeningIsPlain(cells, t);
      }
    }
  }

  /** One replacement pass opens exactly the cells of that token. */
  lemma {:induction false} ReplaceExpands(cells: seq<Cell>, at: map<string, string>, t: string)
    requires Bound(cells, at) && Bracketed(t) && t in at && Clear(cells, t)
    ensures Replace(Flat(cells), t, at[t]) == Flat(Expand(cells, t))
  {
    if cells != [] {
      ReplaceExpands(cells[1..], at, t);
      var c, rest := cells[0], Flat(cells[1..]);
      if c.Tk? && c.token == t {
        ReplaceLeading(t, rest, at[t]);
        FlatAppend(Chars(c.original), Expand(cells[1..], t));
        FlatChars(c.original);
      } else {
        FlatAppend([c], Expand(cells[1..], t));
        if c.Tk? {
          ReplaceSkipsToken(c.token, rest, t, at[t]);
        } else {
          assert Flat(cells)[1..] == rest;
        }
      }
    }
  }

  lemma {:induction false} ExpandKeeps(cells: seq<Cell>, t: string)
    ensures Plain(Expand(cells, t)) == Plain(cells)
    ensures forall c | c in Expand(cells, t) && c.Tk? :: c in cells && c.token != t
  {
    if cells != [] {
      ExpandKeeps(cells[1..], t);
      var head := if cells[0].Tk? && cells[0].token == t then Chars(cells[0].original) else [cells[0]];
      FlatAppend(head, Expand(cells[1..], t));
      if cells[0].Tk? {
        FlatChars(cells[0].original);
      }
    }
  }

  /** Replacing the tokens one after another, in any order that covers the
      tokens present, restores the original, whatever else the vault binds. */
  lemma {:induction false} UnmaskRestores(order: seq<string>, at: map<string, string>, cells: seq<Cell>)
    requires Bound(cells, at)
    requires Tokens(order, at) && forall t | t in order :: !Occurs(Plain(cells), t)
    requires forall c | c in cells && c.Tk? :: c.token in order
    ensures UnmaskWith(order, at, Flat(cells)) == Plain(cells)
    decreases |order|
  {
    if order == [] {
      FlatIsPlain(cells);
    } else {
      AbsentIsClear(cells, order[0]);
      ReplaceExpands(cells, at, order[0]);
      ExpandKeeps(cells, order[0]);
      UnmaskRestores(order[1..], at, Expand(cells, order[0]));
    }
  }

  lemma {:induction false} FlatIsPlain(cells: seq<Cell>)
    requires forall c | c in cells :: c.Ch?
    ensures Flat(cells) == Plain(cells)
  {
    if cells != [] {
      FlatIsPlain(cells[1..]);
    }
  }

  // ---------- tokens of one call are fresh and small ----------

  /** Every token was issued by its prefix's counter, and no counter exceeds
      the number of tokens issued. */
  ghost predicate Counted(m: Masking) {
    && m.vault.Valid()
    && (forall k | k in m.vault.at :: Issued(k, m.counters))
    && (forall p :: Count(m.counters, p) <= |m.vault.order|)
  }

  ghost predicate Issued(k: string, counters: map<string, nat>) {
    exists p, n :: IsLabel(p) && 1 <= n <= Count(counters, p) && k == Token(p, n)
  }

  /** Every index in the vault lies between 1 and the size of the vault. */
  ghost predicate IndexBound(v: Vault) {
    && v.Valid()
    && (forall k | k in v.at :: HasIndexUpTo(k, |v.order|))
  }

  ghost predicate HasIndexUpTo(k: string, bound: nat) {
    exists p, n :: IsLabel(p) && 1 <= n <= bound && k == Token(p, n)
  }

  lemma NextTokenIsFresh(m: Masking, q: string)
    requires Counted(m) && IsLabel(q)
    ensures Token(q, Count(m.counters, q) + 1) !in m.vault.at
  {
    hide Dict.Valid;
    var k := Token(q, Count(m.counters, q) + 1);
    if k in m.vault.at {
      assert Issued(k, m.counters);
      var p, n :| IsLabel(p) && 1 <= n <= Count(m.counters, p) && k == Token(p, n);
      TokenInjective(q, Count(m.counters, q) + 1, p, n);
    }
  }

  lemma IssuedStays(k: string, counters: map<string, nat>, q: string)
    requires Issued(k, counters)
    ensures Issued(k, counters[q := Count(counters, q) + 1])
  {
    var p, n :| IsLabel(p) && 1 <= n <= Count(counters, p) && k == Token(p, n);
    assert n <= Count(counters[q := Count(counters, q) + 1], p);
  }

  lemma MaskSpanCounts(text: string, m: Masking, s: Span)
    requires Counted(m)
    ensures Token(PrefixOf(s.entity), Count(m.counters, PrefixOf(s.entity)) + 1) !in m.vault.at
    ensures Counted(MaskSpan(text, m, s))
  {
    hide Token, IsLabel, Dict.Valid, Issued;
    var q := PrefixOf(s.entity);
    NextTokenIsFresh(m, q);
    var c := Count(m.counters, q) + 1;
    var counters := m.counters[q := c];
    m.vault.PutValid(Token(q, c), From(Before(text, s.end), s.start));
    JustIssued(q, counters);
    forall k | k in m.vault.at ensures Issued(k, counters) {
      IssuedStays(k, m.counters, q);
    }
    forall p ensures Count(counters, p) <= |m.vault.order| + 1 {
      assert Count(m.counters, p) <= |m.vault.order|;
    }
  }

  lemma JustIssued(q: string, counters: map<string, nat>)
    requires IsLabel(q) && Count(counters, q) >= 1
    ensures Issued(Token(q, Count(counters, q)), counters)
  {
  }

  lemma {:induction false} MaskSpansCount(text: string, m: Masking, ss: seq<Span>)
    requires Counted(m)
    ensures Counted(MaskSpans(text, m, ss))
    decreases |ss|
  {
    if ss != [] {
      MaskSpanCounts(text, m, ss[0]);
      MaskSpansCount(text, MaskSpan(text, m, ss[0]), ss[1..]);
    }
  }

  lemma MaskIndexBound(text: string, spans: seq<Span>)
    ensures IndexBound(Mask(text, spans).vault)
  {
    MaskSpansCount(text, Masking(text, Empty(), map[]), SortByStart(spans));
    var m := Mask(text, spans);
    forall k | k in m.vault.at ensures HasIndexUpTo(k, |m.vault.order|) {
      var p, n :| IsLabel(p) && 1 <= n <= Count(m.counters, p) && k == Token(p, n);
    }
  }

  lemma BoundIsBracketed(v: Vault)
    requires IndexBound(v)
    ensures Tokens(v.order, v.at)
    ensures forall k | k in v.at :: Bracketed(k)
  {
    forall k | k in v.at ensures Bracketed(k) {
      var p, n :| IsLabel(p) && 1 <= n <= |v.order| && k == Token(p, n);
      TokenBracketed(p, n);
    }
  }

  // ---------- any spans: the masked text is cells, whole tokens or not ----------

  /** What a detector reports: spans within the text, overlapping or not. */
  ghost predicate InRange(text: string, ss: seq<Span>) {
    forall s | s in ss :: s.start <= s.end <= |text|
  }

  /** No span starts after the one before it, the first not after `p`. */
  ghost predicate Falling(text: string, ss: seq<Span>, p: nat) {
    ss == [] || (ss[0].start <= p && ss[0].start <= ss[0].end <= |text| && Falling(text, ss[1..], ss[0].start))
  }

  lemma {:induction false} InsertFalls(text: string, x: Span, ss: seq<Span>, p: nat)
    requires Falling(text, ss, p) && x.start <= p && x.start <= x.end <= |text|
    ensures Falling(text, InsertByStart(x, ss), p)
  {
    if ss != [] && ss[0].start > x.start {
      InsertFalls(text, x, ss[1..], ss[0].start);
    }
  }

  lemma {:induction false} SortFalls(text: string, ss: seq<Span>)
    requires InRange(text, ss)
    ensures Falling(text, SortByStart(ss), |text|)
  {
    if ss != [] {
      SortFalls(text, ss[1..]);
      InsertFalls(text, ss[0], SortByStart(ss[1..]), |text|);
    }
  }

  /** The cells without the first `k` shown characters; of a token that is cut
      the rest stays behind as plain characters. */
  function Drop(cells: seq<Cell>, k: nat): seq<Cell> {
    if k == 0 || cells == [] then cells
    else if |Shown(cells[0])| <= k then Drop(cells[1..], k - |Shown(cells[0])|)
    else Chars(Shown(cells[0])[k..]) + cells[1..]
  }

  /** The cells from `p` on once the span is hidden: a span that ends beyond `p`
      swallows that many characters of what is shown there. */
  function Over(text: string, cells: seq<Cell>, p: nat, s: Span, token: string): seq<Cell>
    requires s.start <= p <= |text| && s.start <= s.end <= |text|
  {
    [Tk(token, text[s.start..s.end])]
    + if s.end <= p then Chars(text[s.end..p]) + cells else Drop(cells, s.end - p)
  }

  /** The masked text as cells, from `cells` for what comes after `p`. */
  function CellsFrom(text: string, ss: seq<Span>, counters: map<string, nat>, p: nat, cells: seq<Cell>): seq<Cell>
    requires Falling(text, ss, p) && p <= |text|
    decreases |ss|
  {
    if ss == [] then Chars(text[..p]) + cells
    else
      var s, q := ss[0], PrefixOf(ss[0].entity);
      var n := Count(counters, q) + 1;
      CellsFrom(text, ss[1..], counters[q := n], s.start, Over(text, cells, p, s, Token(q, n)))
  }

  ghost function CellsOf(text: string, spans: seq<Span>): seq<Cell>
    requires InRange(text, spans)
  {
    SortFalls(text, spans);
    if text == [] then [] else CellsFrom(text, SortByStart(spans), map[], |text|, [])
  }

  lemma {:induction false} DropIsFrom(cells: seq<Cell>, k: nat)
    ensures Flat(Drop(cells, k)) == From(Flat(cells), k)
    ensures forall c | c in Drop(cells, k) && c.Tk? :: c in cells
    decreases |cells|
  {
    if k != 0 && cells != [] {
      hide Shown, From, Chars;
      var shown, rest := Shown(cells[0]), Flat(cells[1..]);
      if |shown| <= k {
        DropIsFrom(cells[1..], k - |shown|);
        FromPast(shown, rest, k);
      } else {
        FlatAppend(Chars(shown[k..]), cells[1..]);
        FlatChars(shown[k..]);
        FromWithin(shown, rest, k);
        CharsFirst(shown[k..], cells[1..]);
      }
    }
  }

  lemma FromWithin(a: string, b: string, k: nat)
    requires k <= |a|
    ensures From(a + b, k) == a[k..] + b
  {
  }

  lemma CharsFirst(s: string, cells: seq<Cell>)
    ensures forall c | c in Chars(s) + cells && c.Tk? :: c in cells
  {
  }

  lemma FromPast(a: string, b: string, k: nat)
    requires |a| <= k
    ensures From(a + b, k) == From(b, k - |a|)
  {
    if k <= |a + b| {
      assert (a + b)[k..] == b[k - |a|..];
    }
  }

  /** Replacing the span in the text shows exactly the new cells. */
  lemma OverIsFlat(text: string, cells: seq<Cell>, p: nat, s: Span, token: string)
    requires s.start <= p <= |text| && s.start <= s.end <= |text|
    ensures var w := text[..p] + Flat(cells);
            Before(w, s.start) + token + From(w, s.end) == text[..s.start] + Flat(Over(text, cells, p, s, token))
  {
    hide Flat, Over, Before, From;
    FlatOver(text, cells, p, s, token);
    if s.end <= p {
      SpliceWithin(text, Flat(cells), p, s, token);
    } else {
      SpliceBeyond(text, Flat(cells), p, s, token);
    }
  }

  lemma FlatOver(text: string, cells: seq<Cell>, p: nat, s: Span, token: string)
    requires s.start <= p <= |text| && s.start <= s.end <= |text|
    ensures Flat(Over(text, cells, p, s, token))
         == token + if s.end <= p then text[s.end..p] + Flat(cells) else From(Flat(cells), s.end - p)
  {
    hide Flat, Drop, From;
    var original := text[s.start..s.end];
    if s.end <= p {
      var gap := text[s.end..p];
      FlatPrepend(Tk(token, original), Chars(gap) + cells);
      FlatAppend(Chars(gap), cells);
      FlatChars(gap);
    } else {
      FlatPrepend(Tk(token, original), Drop(cells, s.end - p));
      DropIsFrom(cells, s.end - p);
    }
  }

  lemma SpliceWithin(text: string, tail: string, p: nat, s: Span, token: string)
    requires s.start <= s.end <= p <= |text|
    ensures Before(text[..p] + tail, s.start) + token + From(text[..p] + tail, s.end)
         == text[..s.start] + (token + (text[s.end..p] + tail))
  {
    var w := text[..p] + tail;
    assert w[..s.start] == text[..s.start];
    assert w[s.end..] == text[s.end..p] + tail;
  }

  lemma SpliceBeyond(text: string, tail: string, p: nat, s: Span, token: string)
    requires s.start <= p < s.end && p <= |text|
    ensures Before(text[..p] + tail, s.start) + token + From(text[..p] + tail, s.end)
         == text[..s.start] + (token + From(tail, s.end - p))
  {
    var w := text[..p] + tail;
    assert w[..s.start] == text[..s.start];
    FromPast(text[..p], tail, s.end);
  }

  /** The loop turns the text into the cells. */
  lemma {:induction false} MaskedIsFlat(text: string, m: Masking, p: nat, cells: seq<Cell>, ss: seq<Span>)
    requires Falling(text, ss, p) && p <= |text| && m.masked == text[..p] + Flat(cells)
    ensures MaskSpans(text, m, ss).masked == Flat(CellsFrom(text, ss, m.counters, p, cells))
    decreases |ss|
  {
    hide Flat, PrefixOf, Token, Over;
    if ss == [] {
      FlatAppend(Chars(text[..p]), cells);
      FlatChars(text[..p]);
    } else {
      var s, q := ss[0], PrefixOf(ss[0].entity);
      var token := Token(q, Count(m.counters, q) + 1);
      OverIsFlat(text, cells, p, s, token);
      MaskedIsFlat(text, MaskSpan(text, m, s), s.start, Over(text, cells, p, s, token), ss[1..]);
    }
  }

  lemma {:induction false} BindingsStay(text: string, m: Masking, ss: seq<Span>)
    requires Counted(m)
    ensures forall k | k in m.vault.at ::
              k in MaskSpans(text, m, ss).vault.at && MaskSpans(text, m, ss).vault.at[k] == m.vault.at[k]
    decreases |ss|
  {
    hide Counted, Token, PrefixOf;
    if ss != [] {
      MaskSpanCounts(text, m, ss[0]);
      BindingsStay(text, MaskSpan(text, m, ss[0]), ss[1..]);
    }
  }

  lemma OverIsBound(text: string, cells: seq<Cell>, p: nat, s: Span, token: string, at: map<string, string>)
    requires s.start <= p <= |text| && s.start <= s.end <= |text|
    requires Bound(cells, at) && token !in at && Bracketed(token)
    ensures Bound(Over(text, cells, p, s, token), at[token := text[s.start..s.end]])
  {
    hide Bracketed;
    var over := Over(text, cells, p, s, token);
    if s.end > p {
      DropIsFrom(cells, s.end - p);
    }
    assert forall c | c in over && c.Tk? :: c == Tk(token, text[s.start..s.end]) || c in cells;
  }

  /** The vault binds every token the cells show whole. */
  lemma {:induction false} CellsAreBound(text: string, m: Masking, p: nat, cells: seq<Cell>, ss: seq<Span>)
    requires Counted(m) && Falling(text, ss, p) && p <= |text| && Bound(cells, m.vault.at)
    ensures Bound(CellsFrom(text, ss, m.counters, p, cells), MaskSpans(text, m, ss).vault.at)
    decreases |ss|
  {
    hide Counted, Token, PrefixOf, Bracketed, Over, Bound, Chars;
    if ss == [] {
      CharsBound(text[..p], cells, m.vault.at);
    } else {
      var s, q := ss[0], PrefixOf(ss[0].entity);
      var token, m' := Token(q, Count(m.counters, q) + 1), MaskSpan(text, m, ss[0]);
      MaskSpanCounts(text, m, s);
      TokenBracketed(q, Count(m.counters, q) + 1);
      OverIsBound(text, cells, p, s, token, m.vault.at);
      Stretch(text, s);
      CellsAreBound(text, m', s.start, Over(text, cells, p, s, token), ss[1..]);
    }
  }

  lemma CharsBound(s: string, cells: seq<Cell>, at: map<string, string>)
    requires Bound(cells, at)
    ensures Bound(Chars(s) + cells, at)
  {
    CharsFirst(s, cells);
  }

  lemma Stretch(text: string, s: Span)
    requires s.start <= s.end <= |text|
    ensures From(Before(text, s.end), s.start) == text[s.start..s.end]
  {
  }

  /** For any detections the masked text is a run of plain characters and whole
      tokens, which the call's own vault binds to the stretches they stand for. */
  lemma MaskHides(text: string, spans: seq<Span>)
    requires InRange(text, spans)
    ensures Flat(CellsOf(text, spans)) == Mask(text, spans).masked
    ensures Bound(CellsOf(text, spans), Mask(text, spans).vault.at)
  {
    hide Plain, MaskSpans, SortByStart, Bracketed, CellsFrom;
    if text != [] {
      SortFalls(text, spans);
      var start, ss := Masking(text, Empty(), map[]), SortByStart(spans);
      NothingMasked(text);
      EmptyText(text, spans);
      assert text == text[..|text|] + Flat([]);
      MaskedIsFlat(text, start, |text|, [], ss);
      CellsAreBound(text, start, |text|, [], ss);
    }
  }

  lemma NothingMasked(text: string)
    ensures Counted(Masking(text, Empty(), map[])) && Bound([], map[])
  {
  }

  lemma EmptyText(text: string, spans: seq<Span>)
    requires text != []
    ensures Mask(text, spans) == MaskSpans(text, Masking(text, Empty(), map[]), SortByStart(spans))
  {
  }

  // ---------- disjoint spans: every token of the vault stands for its stretch ----------

  ghost predicate Apart(a: Span, b: Span) { a.end <= b.start || b.end <= a.start }

  /** In range, non-empty and pairwise disjoint. */
  ghost predicate Disjoint(text: string, ss: seq<Span>) {
    && (forall s | s in ss :: s.start < s.end <= |text|)
    && (forall i, j | 0 <= i < j < |ss| :: Apart(ss[i], ss[j]))
  }

  /** Each span ends before the previous one starts, the first before `p`. */
  ghost predicate Descending(ss: seq<Span>, p: nat) {
    ss == [] || (ss[0].start < ss[0].end <= p && Descending(ss[1..], ss[0].start))
  }

  lemma {:induction false} InsertMembers(x: Span, ss: seq<Span>)
    ensures forall s :: s in InsertByStart(x, ss) <==> s == x || s in ss
  {
    if ss != [] && ss[0].start > x.start {
      InsertMembers(x, ss[1..]);
    }
  }

  lemma {:induction false} InsertDescends(x: Span, ss: seq<Span>, p: nat)
    requires Descending(ss, p) && x.start < x.end <= p
    requires forall s | s in ss :: Apart(x, s)
    ensures Descending(InsertByStart(x, ss), p)
  {
    if ss == [] {
    } else if ss[0].start <= x.start {
      assert Apart(x, ss[0]);
    } else {
      assert Apart(x, ss[0]);
      InsertDescends(x, ss[1..], ss[0].start);
    }
  }

  lemma {:induction false} SortDescends(text: string, ss: seq<Span>)
    requires Disjoint(text, ss)
    ensures Descending(SortByStart(ss), |text|)
    ensures forall s :: s in SortByStart(ss) <==> s in ss
  {
    if ss != [] {
      SortDescends(text, ss[1..]);
      InsertMembers(ss[0], SortByStart(ss[1..]));
      InsertDescends(ss[0], SortByStart(ss[1..]), |text|);
    }
  }

  lemma {:induction false} DescendsFalls(text: string, ss: seq<Span>, p: nat)
    requires Descending(ss, p) && p <= |text|
    ensures Falling(text, ss, p)
  {
    if ss != [] {
      DescendsFalls(text, ss[1..], ss[0].start);
    }
  }

  lemma OverWithin(text: string, cells: seq<Cell>, p: nat, s: Span, token: string)
    requires s.start <= s.end <= p <= |text|
    ensures Plain(Over(text, cells, p, s, token)) == text[s.start..s.end] + (text[s.end..p] + Plain(cells))
  {
    hide Plain;
    FlatPrepend(Tk(token, text[s.start..s.end]), Chars(text[s.end..p]) + cells);
    FlatAppend(Chars(text[s.end..p]), cells);
    FlatChars(text[s.end..p]);
  }

  lemma Stretches(text: string, a: nat, b: nat, p: nat, tail: string)
    requires a <= b <= p <= |text|
    ensures text[..a] + (text[a..b] + (text[b..p] + tail)) == text[..p] + tail
  {
  }

  /** A span that ends before `p` hides its stretch and nothing else. */
  lemma OverIsPlain(text: string, cells: seq<Cell>, p: nat, s: Span, token: string)
    requires s.start <= s.end <= p <= |text|
    ensures text[..s.start] + Plain(Over(text, cells, p, s, token)) == text[..p] + Plain(cells)
  {
    hide Plain, Over;
    OverWithin(text, cells, p, s, token);
    Stretches(text, s.start, s.end, p, Plain(cells));
  }

  lemma OverShows(text: string, cells: seq<Cell>, p: nat, s: Span, token: string)
    requires s.start <= s.end <= p <= |text|
    ensures Tk(token, text[s.start..s.end]) in Over(text, cells, p, s, token)
    ensures forall c | c in cells :: c in Over(text, cells, p, s, token)
  {
    var back := Chars(text[s.end..p]) + cells;
    assert Over(text, cells, p, s, token) == [Tk(token, text[s.start..s.end])] + back;
    assert forall c | c in cells :: c in back;
  }

  /** Disjoint spans hide the text as it is, and no token is cut. */
  lemma {:induction false} CellsArePlain(text: string, ss: seq<Span>, counters: map<string, nat>, p: nat,
                                         cells: seq<Cell>)
    requires Descending(ss, p) && p <= |text|
    ensures Falling(text, ss, p)
    ensures Plain(CellsFrom(text, ss, counters, p, cells)) == text[..p] + Plain(cells)
    ensures forall c | c in cells :: c in CellsFrom(text, ss, counters, p, cells)
    decreases |ss|
  {
    hide Plain, PrefixOf, Token, Over;
    DescendsFalls(text, ss, p);
    if ss == [] {
      FlatAppend(Chars(text[..p]), cells);
      FlatChars(text[..p]);
    } else {
      var s, q := ss[0], PrefixOf(ss[0].entity);
      var n := Count(counters, q) + 1;
      OverIsPlain(text, cells, p, s, Token(q, n));
      OverShows(text, cells, p, s, Token(q, n));
      CellsArePlain(text, ss[1..], counters[q := n], s.start, Over(text, cells, p, s, Token(q, n)));
    }
  }

  ghost predicate ShowsToken(cells: seq<Cell>, t: string) {
    exists c | c in cells :: c.Tk? && c.token == t
  }

  lemma {:induction false} TokensAreShown(text: string, m: Masking, p: nat, cells: seq<Cell>, ss: seq<Span>)
    requires Descending(ss, p) && p <= |text|
    ensures Falling(text, ss, p)
    ensures forall t | t in MaskSpans(text, m, ss).vault.at ::
              t in m.vault.at || ShowsToken(CellsFrom(text, ss, m.counters, p, cells), t)
    decreases |ss|
  {
    hide Token, PrefixOf, Over, Plain, ShowsToken, MaskSpan;
    DescendsFalls(text, ss, p);
    if ss != [] {
      var s, q := ss[0], PrefixOf(ss[0].entity);
      var token, m' := Token(q, Count(m.counters, q) + 1), MaskSpan(text, m, ss[0]);
      OneTokenMore(text, m, s);
      var over := Over(text, cells, p, s, token);
      TokensAreShown(text, m', s.start, over, ss[1..]);
      OverShows(text, cells, p, s, token);
      CellsArePlain(text, ss[1..], m'.counters, s.start, over);
      ShowsIt(CellsFrom(text, ss[1..], m'.counters, s.start, over), token, text[s.start..s.end]);
    }
  }

  lemma OneTokenMore(text: string, m: Masking, s: Span)
    ensures var q, m' := PrefixOf(s.entity), MaskSpan(text, m, s);
            && m'.counters == m.counters[q := Count(m.counters, q) + 1]
            && (forall t | t in m'.vault.at :: t in m.vault.at || t == Token(q, Count(m.counters, q) + 1))
  {
  }

  lemma ShowsIt(cells: seq<Cell>, token: string, original: string)
    requires Tk(token, original) in cells
    ensures ShowsToken(cells, token)
  {
  }

  /** For disjoint spans the cells hide the text itself and show exactly the
      tokens of the call's own vault. */
  lemma DisjointHides(text: string, spans: seq<Span>)
    requires Disjoint(text, spans)
    ensures InRange(text, spans) && Plain(CellsOf(text, spans)) == text
    ensures forall t :: t in Mask(text, spans).vault.at <==> ShowsToken(CellsOf(text, spans), t)
  {
    hide Plain, MaskSpans, SortByStart, Bracketed, CellsFrom;
    MaskHides(text, spans);
    NothingHidden();
    if text != [] {
      SortDescends(text, spans);
      EmptyText(text, spans);
      CellsArePlain(text, SortByStart(spans), map[], |text|, []);
      TokensAreShown(text, Masking(text, Empty(), map[]), |text|, [], SortByStart(spans));
      assert text[..|text|] + [] == text;
    }
  }

  lemma NothingHidden()
    ensures Plain([]) == []
  {
  }

  // ---------- reading a masked text with any later vault ----------

  /** What a token becomes: its binding, or itself if the vault has none. */
  function Value(at: map<string, string>, t: string): string { if t in at then at[t] else t }

  function Read(cells: seq<Cell>, at: map<string, string>): string {
    if cells == [] then []
    else (if cells[0].Ch? then [cells[0].c] else Value(at, cells[0].token)) + Read(cells[1..], at)
  }

  /** The cells read with `at`: for disjoint spans the text with each detected
      stretch replaced by what its token becomes. */
  ghost function Reading(text: string, spans: seq<Span>, at: map<string, string>): string
    requires InRange(text, spans)
  {
    Read(CellsOf(text, spans), at)
  }

  /** The cells as `at` sees them: tokens it does not bind are plain text. */
  function Rebind(cells: seq<Cell>, at: map<string, string>): seq<Cell> {
    if cells == [] then [] else RebindCell(cells[0], at) + Rebind(cells[1..], at)
  }

  function RebindCell(c: Cell, at: map<string, string>): seq<Cell> {
    if c.Ch? then [c] else if c.token in at then [Tk(c.token, at[c.token])] else Chars(c.token)
  }

  lemma OneCell(c: Cell, at: map<string, string>)
    ensures Flat(RebindCell(c, at)) == Shown(c)
    ensures Plain(RebindCell(c, at)) == if c.Ch? then [c.c] else Value(at, c.token)
  {
    if c.Tk? && c.token !in at {
      FlatChars(c.token);
    } else {
      var d := RebindCell(c, at)[0];
      FlatPrepend(d, []);
      assert [d] + [] == [d];
    }
  }

  lemma {:induction false} RebindReads(cells: seq<Cell>, at: map<string, string>)
    requires forall c | c in cells && c.Tk? :: Bracketed(c.token)
    ensures Flat(Rebind(cells, at)) == Flat(cells) && Plain(Rebind(cells, at)) == Read(cells, at)
    ensures Bound(Rebind(cells, at), at)
  {
    hide Bracketed;
    if cells != [] {
      RebindReads(cells[1..], at);
      OneCell(cells[0], at);
      FlatAppend(RebindCell(cells[0], at), Rebind(cells[1..], at));
    }
  }

  /** Unmasking with any vault, older, newer or emptied, gives the cells of the
      masked text with each token replaced by what it now stands for. */
  lemma UnmaskReads(text: string, spans: seq<Span>, vault: Vault, order: seq<string>)
    requires InRange(text, spans) && IndexBound(vault)
    requires forall t :: t in order <==> t in vault.at
    requires forall t | t in vault.at :: !Occurs(Reading(text, spans, vault.at), t)
    ensures Tokens(order, vault.at)
    ensures UnmaskWith(order, vault.at, Mask(text, spans).masked) == Reading(text, spans, vault.at)
  {
    hide Bracketed, CellsOf, Flat, Plain, Mask, Occurs, UnmaskWith;
    MaskHides(text, spans);
    BoundIsBracketed(vault);
    RebindReads(CellsOf(text, spans), vault.at);
    UnmaskRestores(order, vault.at, Rebind(CellsOf(text, spans), vault.at));
  }

  /** No stretch got shorter. */
  ghost predicate Longer(issued: map<string, string>, at: map<string, string>) {
    forall t | t in issued :: |issued[t]| <= |Value(at, t)|
  }

  ghost predicate Shorter(issued: map<string, string>, at: map<string, string>) {
    forall t | t in issued :: |issued[t]| >= |Value(at, t)|
  }

  ghost predicate Keeps(issued: map<string, string>, at: map<string, string>) {
    forall t | t in issued :: Value(at, t) == issued[t]
  }

  /** No stretch behind a token got shorter, or none got longer. */
  ghost predicate OneWay(cells: seq<Cell>, at: map<string, string>) {
    || (forall c | c in cells && c.Tk? :: |c.original| <= |Value(at, c.token)|)
    || (forall c | c in cells && c.Tk? :: |c.original| >= |Value(at, c.token)|)
  }

  lemma {:induction false} ReadLength(cells: seq<Cell>, at: map<string, string>)
    ensures (forall c | c in cells && c.Tk? :: |c.original| <= |Value(at, c.token)|) ==>
              |Plain(cells)| <= |Read(cells, at)|
    ensures (forall c | c in cells && c.Tk? :: |c.original| >= |Value(at, c.token)|) ==>
              |Plain(cells)| >= |Read(cells, at)|
  {
    if cells != [] {
      assert cells[0] in cells;
      ReadLength(cells[1..], at);
    }
  }

  /** If all stretches changed their lengths the same way, the reading is the
      text only when none of them changed at all. */
  lemma {:induction false} ReadExactly(cells: seq<Cell>, at: map<string, string>)
    requires OneWay(cells, at)
    ensures Read(cells, at) == Plain(cells) <==> forall c | c in cells && c.Tk? :: Value(at, c.token) == c.original
  {
    if cells != [] {
      var c, rest := cells[0], cells[1..];
      assert c in cells && forall d :: d in cells <==> d == c || d in rest;
      ReadExactly(rest, at);
      ReadLength(rest, at);
      if c.Tk? {
        SameParts(Value(at, c.token), Read(rest, at), c.original, Plain(rest));
      } else {
        SameParts([c.c], Read(rest, at), [c.c], Plain(rest));
      }
    }
  }

  lemma SameParts(a: string, x: string, b: string, y: string)
    requires (|a| <= |b| && |x| <= |y|) || (|a| >= |b| && |x| >= |y|)
    ensures a + x == b + y <==> a == b && x == y
  {
    if a + x == b + y {
      assert |a| == |b| && |x| == |y|;
      assert (a + x)[..|a|] == a && (b + y)[..|b|] == b;
      assert (a + x)[|a|..] == x && (b + y)[|b|..] == y;
    }
  }

  /** A masked text, however old, is restored exactly when the vault still turns
      each of its tokens into the stretch it stood for: for one detection always,
      for several when their lengths did not change in opposite directions. */
  lemma RestoredExactly(text: string, spans: seq<Span>, vault: Vault, order: seq<string>)
    requires Disjoint(text, spans) && IndexBound(vault)
    requires forall t :: t in order <==> t in vault.at
    requires forall t | t in vault.at :: !Occurs(Reading(text, spans, vault.at), t)
    requires Longer(Mask(text, spans).vault.at, vault.at) || Shorter(Mask(text, spans).vault.at, vault.at)
    ensures Tokens(order, vault.at)
    ensures UnmaskWith(order, vault.at, Mask(text, spans).masked) == text
            <==> Keeps(Mask(text, spans).vault.at, vault.at)
  {
    hide Bracketed, CellsOf, Flat, Plain, Mask, Occurs, UnmaskWith;
    UnmaskReads(text, spans, vault, order);
    MaskHides(text, spans);
    DisjointHides(text, spans);
    ReadExactly(CellsOf(text, spans), vault.at);
  }

  lemma OneWayIfOne(issued: map<string, string>, at: map<string, string>, t: string)
    requires issued.Keys == {t}
    ensures Longer(issued, at) || Shorter(issued, at)
  {
    assert forall u :: u in issued <==> u == t;
  }

  /** Whatever was detected, overlapping or not: with any session vault that still
      binds this call's tokens, replacing the vault's tokens in any order gives
      the plain reading of the cells, provided none of them occurs in it. */
  lemma AnyMaskRead(text: string, spans: seq<Span>, vault: Vault, order: seq<string>)
    requires InRange(text, spans) && IndexBound(vault)
    requires forall t | t in Mask(text, spans).vault.at ::
               t in vault.at && vault.at[t] == Mask(text, spans).vault.at[t]
    requires forall t :: t in order <==> t in vault.at
    requires forall t | t in vault.at :: !Occurs(Plain(CellsOf(text, spans)), t)
    ensures Tokens(order, vault.at)
    ensures UnmaskWith(order, vault.at, Mask(text, spans).masked) == Plain(CellsOf(text, spans))
  {
    hide Bracketed, CellsOf, Flat, Plain, Mask, Occurs, UnmaskWith;
    MaskHides(text, spans);
    BoundIsBracketed(vault);
    UnmaskRestores(order, vault.at, CellsOf(text, spans));
  }

  /** Unmask inverts mask: with any session vault that still binds this call's
      tokens, replacing the vault's tokens in any order gives back the text,
      provided none of them occurs in it. */
  lemma UnmaskInvertsMask(text: string, spans: seq<Span>, vault: Vault, order: seq<string>)
    requires Disjoint(text, spans) && IndexBound(vault)
    requires forall t | t in Mask(text, spans).vault.at ::
               t in vault.at && vault.at[t] == Mask(text, spans).vault.at[t]
    requires forall t :: t in order <==> t in vault.at
    requires forall t | t in vault.at :: !Occurs(text, t)
    ensures Tokens(order, vault.at)
    ensures UnmaskWith(order, vault.at, Mask(text, spans).masked) == text
  {
    DisjointHides(text, spans);
    AnyMaskRead(text, spans, vault, order);
  }
}
