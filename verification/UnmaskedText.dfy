/** Unmasking text that no masking call produced: model output, and masked texts
    with tokens in them that the detector did not report. */
module UnmaskedText {
  import opened OrderedDict
  import opened Text
  import opened PiiVault

  // ---------- replacing all tokens at once ----------

  /** What would be the token at the start of `w`: everything up to the first ']'. */
  function Candidate(w: string): (t: string)
    ensures |t| <= |w| && t == w[..|t|] && (w != [] ==> t != [])
  {
    if w == [] || w[0] == ']' then w[..if w == [] then 0 else 1] else [w[0]] + Candidate(w[1..])
  }

  lemma {:induction false} CandidateOf(t: string, rest: string)
    requires t != [] && t[|t| - 1] == ']' && forall i | 0 <= i < |t| - 1 :: t[i] != ']'
    ensures Candidate(t + rest) == t
  {
    assert (t + rest)[0] == t[0] && (t + rest)[1..] == t[1..] + rest;
    if |t| > 1 { CandidateOf(t[1..], rest); }
  }

  lemma TokenIsCandidate(t: string, rest: string)
    requires Bracketed(t)
    ensures Candidate(t + rest) == t
  {
    CandidateOf(t, rest);
  }

  /** All tokens of `at` in `w` replaced by what they stand for, in one pass that
      never looks at what it has put in. */
  function ReplaceAll(w: string, at: map<string, string>): string
    decreases |w|
  {
    if w == [] then []
    else
      var t := Candidate(w);
      if t in at then at[t] + ReplaceAll(w[|t|..], at) else [w[0]] + ReplaceAll(w[1..], at)
  }

  ghost predicate AllBracketed(at: map<string, string>) { forall t | t in at :: Bracketed(t) }

  lemma {:induction false} ReplaceAllSkips(a: string, rest: string, at: map<string, string>)
    requires AllBracketed(at) && '[' !in a
    ensures ReplaceAll(a + rest, at) == a + ReplaceAll(rest, at)
  {
    if a == [] {
      assert a + rest == rest;
    } else {
      assert (a + rest)[0] == a[0] && (a + rest)[1..] == a[1..] + rest;
      ReplaceAllSkips(a[1..], rest, at);
    }
  }

  /** A leading token is replaced by what it stands for, or stays. */
  lemma ReplaceAllLeading(t: string, rest: string, at: map<string, string>)
    requires AllBracketed(at) && Bracketed(t)
    ensures ReplaceAll(t + rest, at) == Value(at, t) + ReplaceAll(rest, at)
  {
    TokenIsCandidate(t, rest);
    NoOpeningInside(t);
    hide Bracketed, ReplaceAll, Candidate, AllBracketed;
    if t in at {
      ReplaceAllStep(t + rest, at);
      assert (t + rest)[|t|..] == rest;
    } else {
      UnboundStays(t, rest, at);
    }
  }

  lemma UnboundStays(t: string, rest: string, at: map<string, string>)
    requires AllBracketed(at) && t != [] && '[' !in t[1..] && t !in at && Candidate(t + rest) == t
    ensures ReplaceAll(t + rest, at) == t + ReplaceAll(rest, at)
  {
    hide ReplaceAll, Candidate, AllBracketed;
    ReplaceAllStep(t + rest, at);
    ReplaceAllSkips(t[1..], rest, at);
    assert (t + rest)[1..] == t[1..] + rest;
    assert [t[0]] + (t[1..] + ReplaceAll(rest, at)) == t + ReplaceAll(rest, at);
  }

  lemma ReplaceAllStep(w: string, at: map<string, string>)
    requires w != []
    ensures var t := Candidate(w);
            ReplaceAll(w, at) == if t in at then at[t] + ReplaceAll(w[|t|..], at) else [w[0]] + ReplaceAll(w[1..], at)
  {
  }

  // ---------- cells with every token of the vault in its own cell ----------

  /** Plain characters that spell a token of `at` become a cell of that token. */
  function Lift(cells: seq<Cell>, at: map<string, string>): seq<Cell>
    decreases |cells|
  {
    if cells == [] then []
    else
      var t := Candidate(Flat(cells));
      if cells[0].Ch? && t in at && 0 < |t| <= |cells| then [Tk(t, t)] + Lift(cells[|t|..], at)
      else [cells[0]] + Lift(cells[1..], at)
  }

  /** A token that starts at a plain character lies in plain characters. */
  lemma {:induction false} SpelledOut(cells: seq<Cell>, x: string)
    requires x <= Flat(cells) && '[' !in x
    requires forall c | c in cells && c.Tk? :: Bracketed(c.token)
    ensures |x| <= |cells| && cells[..|x|] == Chars(x)
  {
    hide Bracketed;
    if x != [] {
      FirstIsPlain(cells, x);
      SpelledOut(cells[1..], x[1..]);
      assert cells[..|x|] == [cells[0]] + cells[1..][..|x| - 1];
      assert x == [x[0]] + x[1..];
    }
  }

  lemma TokenSpelledOut(cells: seq<Cell>, t: string)
    requires cells != [] && cells[0].Ch? && Bracketed(t) && t <= Flat(cells)
    requires forall c | c in cells && c.Tk? :: Bracketed(c.token)
    ensures |t| <= |cells| && cells == Chars(t) + cells[|t|..]
  {
    var x := t[1..];
    NoOpeningInside(t);
    hide Bracketed, Flat;
    RestOfPrefix(cells, t);
    SpelledOut(cells[1..], x);
    OneCharMore(cells, t);
  }

  lemma OneCharMore(cells: seq<Cell>, t: string)
    requires cells != [] && t != [] && cells[0] == Ch(t[0])
    requires |t| <= |cells| && cells[1..][..|t| - 1] == Chars(t[1..])
    ensures cells == Chars(t) + cells[|t|..]
  {
    forall i | 0 <= i < |t| ensures cells[i] == Chars(t)[i] {
      if i > 0 { assert cells[i] == cells[1..][..|t| - 1][i - 1]; }
    }
    assert cells[..|t|] == Chars(t);
  }

  /** The lifted cells show and hide what the cells did, and reading them is
      replacing all tokens of what they show at once. */
  lemma {:induction false} LiftReads(cells: seq<Cell>, at: map<string, string>)
    requires AllBracketed(at) && forall c | c in cells && c.Tk? :: Bracketed(c.token)
    ensures Flat(Lift(cells, at)) == Flat(cells) && Plain(Lift(cells, at)) == Plain(cells)
    ensures Read(Lift(cells, at), at) == ReplaceAll(Flat(cells), at)
    ensures forall c | c in Lift(cells, at) && c.Tk? :: Bracketed(c.token)
    decreases |cells|
  {
    hide Bracketed;
    if cells != [] {
      var c, t := cells[0], Candidate(Flat(cells));
      if c.Tk? {
        LiftReads(cells[1..], at);
        ReplaceAllLeading(c.token, Flat(cells[1..]), at);
      } else if t in at {
        TokenSpelledOut(cells, t);
        LiftReads(cells[|t|..], at);
        FlatAppend(Chars(t), cells[|t|..]);
        FlatChars(t);
        ReplaceAllLeading(t, Flat(cells[|t|..]), at);
      } else {
        LiftReads(cells[1..], at);
        assert Flat(cells)[1..] == Flat(cells[1..]);
      }
    }
  }

  // ---------- tokens that stand for themselves ----------

  /** The bindings that change anything. */
  function Moving(at: map<string, string>): map<string, string> { map t | t in at && at[t] != t :: at[t] }

  lemma {:induction false} ReplaceBySelf(s: string, t: string)
    requires t != []
    ensures Replace(s, t, t) == s
    decreases |s|
  {
    if s != [] {
      if StartsWith(s, t) {
        ReplaceBySelf(s[|t|..], t);
        assert s == t + s[|t|..];
      } else {
        ReplaceBySelf(s[1..], t);
      }
    }
  }

  function MovingOrder(order: seq<string>, at: map<string, string>): seq<string> {
    if order == [] then []
    else (if order[0] in at && at[order[0]] != order[0] then [order[0]] else []) + MovingOrder(order[1..], at)
  }

  lemma {:induction false} MovingTokens(order: seq<string>, at: map<string, string>)
    requires Tokens(order, at)
    ensures Tokens(MovingOrder(order, at), Moving(at))
    ensures forall t :: t in MovingOrder(order, at) <==> t in order && at[t] != t
    decreases |order|
  {
    hide Bracketed;
    if order != [] {
      assert order[0] in order;
      MovingTokens(order[1..], at);
    }
  }

  lemma {:induction false} OnlyMovingCount(order: seq<string>, at: map<string, string>, s: string)
    requires Tokens(order, at)
    ensures Tokens(MovingOrder(order, at), Moving(at))
    ensures UnmaskWith(order, at, s) == UnmaskWith(MovingOrder(order, at), Moving(at), s)
    decreases |order|
  {
    hide Bracketed, Replace;
    MovingTokens(order, at);
    if order != [] {
      var t := order[0];
      TokenOfOrder(order, at);
      MovingTokens(order[1..], at);
      if at[t] == t {
        ReplaceBySelf(s, t);
        OnlyMovingCount(order[1..], at, s);
        assert MovingOrder(order, at) == MovingOrder(order[1..], at);
      } else {
        OnlyMovingCount(order[1..], at, Replace(s, t, at[t]));
        assert MovingOrder(order, at)[1..] == MovingOrder(order[1..], at);
      }
    }
  }

  lemma TokenOfOrder(order: seq<string>, at: map<string, string>)
    requires order != [] && Tokens(order, at)
    ensures order[0] != [] && order[0] in at && Tokens(order[1..], at)
  {
    assert order[0] in order;
  }

  lemma {:induction false} ReplaceAllMoving(w: string, at: map<string, string>)
    requires AllBracketed(at)
    ensures ReplaceAll(w, Moving(at)) == ReplaceAll(w, at)
    decreases |w|
  {
    hide Bracketed;
    if w != [] {
      var t := Candidate(w);
      if t in at {
        ReplaceAllMoving(w[|t|..], at);
        assert w == t + w[|t|..];
        ReplaceAllLeading(t, w[|t|..], at);
        ReplaceAllLeading(t, w[|t|..], Moving(at));
      } else {
        ReplaceAllMoving(w[1..], at);
      }
    }
  }

  // ---------- unmasking any text ----------

  lemma UnmaskMoving(w: string, order: seq<string>, at: map<string, string>)
    requires AllBracketed(at) && forall t :: t in order <==> t in at
    requires forall t | t in at :: !Occurs(ReplaceAll(w, at), t)
    ensures Tokens(order, at) && UnmaskWith(order, at, w) == ReplaceAll(w, at)
  {
    hide Bracketed, Occurs, UnmaskWith, ReplaceAll, Lift, Flat, Plain;
    var cells := Lift(Chars(w), at);
    LiftReads(Chars(w), at);
    FlatChars(w);
    RebindReads(cells, at);
    UnmaskRestores(order, at, Rebind(cells, at));
  }

  /** Whatever the text, and whatever the vault's order: unmasking replaces all
      tokens of the vault at once, if no token that stands for something else
      occurs in the result. */
  lemma UnmaskReplacesAll(w: string, vault: Vault, order: seq<string>)
    requires IndexBound(vault) && forall t :: t in order <==> t in vault.at
    requires forall t | t in vault.at && vault.at[t] != t :: !Occurs(ReplaceAll(w, vault.at), t)
    ensures Tokens(order, vault.at) && UnmaskWith(order, vault.at, w) == ReplaceAll(w, vault.at)
  {
    hide Bracketed, Occurs, UnmaskWith, ReplaceAll, IndexBound;
    BoundIsBracketed(vault);
    MovingTokens(order, vault.at);
    OnlyMovingCount(order, vault.at, w);
    ReplaceAllMoving(w, vault.at);
    UnmaskMoving(w, MovingOrder(order, vault.at), Moving(vault.at));
  }

  /** The cells of a masked text as a vault sees them: with the tokens the detector
      did not report in their own cells. */
  ghost function SeenCells(text: string, spans: seq<Span>, at: map<string, string>): seq<Cell>
    requires InRange(text, spans)
  {
    Lift(CellsOf(text, spans), at)
  }

  /** Any masked text, overlaps and unreported tokens included, with any vault:
      what comes back is its cells, each token read as what it stands for. */
  lemma MaskedTextReads(text: string, spans: seq<Span>, vault: Vault, order: seq<string>)
    requires InRange(text, spans) && IndexBound(vault) && forall t :: t in order <==> t in vault.at
    requires forall t | t in vault.at && vault.at[t] != t ::
               !Occurs(Read(SeenCells(text, spans, vault.at), vault.at), t)
    ensures Tokens(order, vault.at)
    ensures UnmaskWith(order, vault.at, Mask(text, spans).masked) == Read(SeenCells(text, spans, vault.at), vault.at)
    ensures Plain(SeenCells(text, spans, vault.at)) == Plain(CellsOf(text, spans))
  {
    hide Bracketed, Occurs, UnmaskWith, ReplaceAll, CellsOf, Lift, Mask, Flat, Plain, IndexBound;
    MaskHides(text, spans);
    BoundIsBracketed(vault);
    LiftReads(CellsOf(text, spans), vault.at);
    UnmaskReplacesAll(Mask(text, spans).masked, vault, order);
  }

  /** A masked text of disjoint detections is restored exactly when every token it
      shows, reported or not, stands for what it covers: an unreported one for
      itself. With the proviso that the lengths did not change both ways. */
  lemma RestoredWithUnreported(text: string, spans: seq<Span>, vault: Vault, order: seq<string>)
    requires Disjoint(text, spans) && InRange(text, spans)
    requires IndexBound(vault) && forall t :: t in order <==> t in vault.at
    requires forall t | t in vault.at && vault.at[t] != t ::
               !Occurs(Read(SeenCells(text, spans, vault.at), vault.at), t)
    requires OneWay(SeenCells(text, spans, vault.at), vault.at)
    ensures Tokens(order, vault.at)
    ensures UnmaskWith(order, vault.at, Mask(text, spans).masked) == text
            <==> forall c | c in SeenCells(text, spans, vault.at) && c.Tk? :: Value(vault.at, c.token) == c.original
  {
    hide Bracketed, Occurs, UnmaskWith, CellsOf, SeenCells, Mask, Plain, IndexBound, Read, OneWay;
    MaskedTextReads(text, spans, vault, order);
    DisjointHides(text, spans);
    ReadExactly(SeenCells(text, spans, vault.at), vault.at);
  }
}
