/** The browser's incremental reader of one string field of a JSON object that
    is still being generated. */
module StreamingOption {
  import opened Options
  import opened Text

  /** What JavaScript's `trim` removes. */
  predicate IsBlank(c: char) {
    var n := c as int;
    || 9 <= n <= 13 || n == 0x20 || n == 0xA0 || n == 0x1680 || 0x2000 <= n <= 0x200A
    || n == 0x2028 || n == 0x2029 || n == 0x202F || n == 0x205F || n == 0x3000 || n == 0xFEFF
  }

  function TrimStart(s: string): string {
    if s != [] && IsBlank(s[0]) then TrimStart(s[1..]) else s
  }

  function TrimEnd(s: string): string {
    if s != [] && IsBlank(s[|s| - 1]) then TrimEnd(s[..|s| - 1]) else s
  }

  function Trim(s: string): string { TrimEnd(TrimStart(s)) }

  function Unfence(s: string): string {
    if StartsWith(s, "```json") then s[7..] else if StartsWith(s, "```") then s[3..] else s
  }

  /** First position of `t` in `s`, or -1. */
  function IndexOf(s: string, t: string): (i: int)
    ensures -1 <= i && (i >= 0 ==> i + |t| <= |s| && s[i..i + |t|] == t)
  {
    if StartsWith(s, t) then 0
    else if s == [] then -1
    else var i := IndexOf(s[1..], t); if i < 0 then -1 else i + 1
  }

  function Quoted(key: string): string { "\"" + key + "\"" }

  /** The text from the value's opening quote on, once that quote has arrived. */
  function Area(accumulated: string, key: string): (area: Option<string>)
    ensures area.Some? ==> |area.value| > 0 && area.value[0] == '"'
  {
    AreaIn(Trim(Unfence(Trim(accumulated))), key)
  }

  function AreaIn(cleaned: string, key: string): (area: Option<string>)
    ensures area.Some? ==> |area.value| > 0 && area.value[0] == '"' && |cleaned| >= 4
  {
    var i := IndexOf(cleaned, Quoted(key));
    if i < 0 then None else ValueAfter(cleaned[i + |key| + 2..])
  }

  /** After the key: a colon, then the value's opening quote. */
  function ValueAfter(after: string): (area: Option<string>)
    ensures area.Some? ==> |area.value| > 0 && area.value[0] == '"' && |after| >= 2
  {
    var j := IndexOf(after, ":");
    if j < 0 then None
    else
      var value := Trim(after[j + 1..]);
      if StartsWith(value, "\"") then TrimOfEmpty(); Some(value) else None
  }

  lemma TrimOfEmpty()
    ensures Trim([]) == []
  {
  }

  function Unescaped(c: char): char { if c == 'n' then '\n' else if c == 't' then '\t' else c }

  /** The characters up to an unescaped quote, or all there are. */
  function Scan(s: string, escaped: bool): string {
    if s == [] then []
    else if escaped then
      [Unescaped(s[0])] + Scan(s[1..], false)
    else if s[0] == '\\' then Scan(s[1..], true)
    else if s[0] == '"' then []
    else [s[0]] + Scan(s[1..], false)
  }

  function Extract(accumulated: string, key: string): string {
    match Area(accumulated, key)
    case None => []
    case Some(value) => Scan(value[1..], false)
  }

  method ParseStreamingOption(accumulated: string, key: string) returns (result: string)
    ensures result == Extract(accumulated, key)
  {
    var area := Area(accumulated, key);
    if area.None? {
      return [];
    }
    result := ReadValue(area.value);
  }

  /** The scanning loop, from just after the opening quote. */
  method ReadValue(s: string) returns (result: string)
    requires |s| > 0
    ensures result == Scan(s[1..], false)
  {
    hide Scan;
    result := [];
    var isEscaped := false;
    for i := 1 to |s|
      invariant result + Scan(s[i..], isEscaped) == Scan(s[1..], false)
    {
      var c := s[i];
      ScanNext(result, s[i..], isEscaped);
      assert s[i..][1..] == s[i + 1..];
      if isEscaped {
        result := result + [Unescaped(c)];
        isEscaped := false;
      } else if c == '\\' {
        isEscaped := true;
      } else if c == '"' {
        return;
      } else {
        result := result + [c];
      }
    }
    ScanEnd(result, isEscaped);
    assert s[|s|..] == [];
  }

  lemma ScanNext(done: string, s: string, escaped: bool)
    requires s != []
    ensures done + Scan(s, escaped) ==
            if escaped then (done + [Unescaped(s[0])]) + Scan(s[1..], false)
            else if s[0] == '\\' then done + Scan(s[1..], true)
            else if s[0] == '"' then done
            else (done + [s[0]]) + Scan(s[1..], false)
  {
    Regroup(done, if escaped then Unescaped(s[0]) else s[0], Scan(s[1..], false));
  }

  lemma ScanEnd(done: string, escaped: bool)
    ensures done + Scan([], escaped) == done
  {
  }

  lemma Regroup<T>(a: seq<T>, x: T, b: seq<T>)
    ensures a + ([x] + b) == (a + [x]) + b
    ensures a + [] == a
  {
  }

  // ---------- more input only extends the value ----------

  lemma {:induction false} TrimStartSuffix(s: string) returns (n: nat)
    ensures n <= |s| && TrimStart(s) == s[n..]
    ensures forall i | 0 <= i < n :: IsBlank(s[i])
    ensures n < |s| ==> !IsBlank(s[n])
  {
    n := 0;
    if s != [] && IsBlank(s[0]) {
      n := TrimStartSuffix(s[1..]);
      assert s[1..][n..] == s[n + 1..];
      assert forall i | 1 <= i < n + 1 :: s[i] == s[1..][i - 1];
      n := n + 1;
    }
  }

  lemma {:induction false} TrimEndPrefix(s: string)
    ensures TrimEnd(s) <= s && (TrimEnd(s) != [] ==> !IsBlank(TrimEnd(s)[|TrimEnd(s)| - 1]))
  {
    if s != [] && IsBlank(s[|s| - 1]) {
      TrimEndPrefix(s[..|s| - 1]);
    }
  }

  lemma {:induction false} TrimStartMonotone(p: string, q: string)
    requires p <= q
    ensures TrimStart(p) <= TrimStart(q)
  {
    if p != [] && IsBlank(p[0]) {
      TrimStartMonotone(p[1..], q[1..]);
    }
  }

  /** A prefix that ends in a non-blank survives trimming the end. */
  lemma {:induction false} TrimEndKeeps(p: string, q: string)
    requires p <= q && (p == [] || !IsBlank(p[|p| - 1]))
    ensures p <= TrimEnd(q)
  {
    if |p| < |q| && IsBlank(q[|q| - 1]) {
      TrimEndKeeps(p, q[..|q| - 1]);
    }
  }

  lemma TrimMonotone(p: string, q: string)
    requires p <= q
    ensures Trim(p) <= Trim(q)
  {
    TrimStartMonotone(p, q);
    TrimEndPrefix(TrimStart(p));
    TrimEndKeeps(Trim(p), TrimStart(q));
  }

  /** The fence is recognised alike once the whole of it could be there. */
  lemma UnfenceMonotone(p: string, q: string)
    requires p <= q && |p| >= 3 && (StartsWith(p, "```") ==> |p| >= 7)
    ensures Unfence(p) <= Unfence(q)
  {
    assert q[..3] == p[..3];
    assert |p| >= 7 ==> q[..7] == p[..7];
    assert StartsWith(q, "```json") ==> q[..7][..3] == "```";
  }

  lemma {:induction false} IndexOfStable(p: string, q: string, t: string)
    requires p <= q && IndexOf(p, t) >= 0
    ensures IndexOf(q, t) == IndexOf(p, t)
  {
    assert q[..|t|] == p[..|t|];
    if !StartsWith(p, t) {
      IndexOfStable(p[1..], q[1..], t);
    }
  }

  lemma {:induction false} ScanMonotone(p: string, q: string, escaped: bool)
    requires p <= q
    ensures Scan(p, escaped) <= Scan(q, escaped)
  {
    if p != [] {
      ScanMonotone(p[1..], q[1..], true);
      ScanMonotone(p[1..], q[1..], false);
    }
  }

  lemma ValueAfterMonotone(p: string, q: string)
    requires p <= q && ValueAfter(p).Some?
    ensures ValueAfter(q).Some? && ValueAfter(p).value <= ValueAfter(q).value
  {
    IndexOfStable(p, q, ":");
    var j := IndexOf(p, ":");
    assert p[j + 1..] <= q[j + 1..];
    TrimMonotone(p[j + 1..], q[j + 1..]);
  }

  lemma DropMonotone(p: string, q: string, n: nat)
    requires p <= q && n <= |p|
    ensures p[n..] <= q[n..]
  {
  }

  lemma AreaInMonotone(p: string, q: string, key: string)
    requires p <= q && AreaIn(p, key).Some?
    ensures AreaIn(q, key).Some? && AreaIn(p, key).value <= AreaIn(q, key).value
  {
    hide IndexOf, ValueAfter;
    IndexOfStable(p, q, Quoted(key));
    var n := IndexOf(p, Quoted(key)) + |key| + 2;
    DropMonotone(p, q, n);
    ValueAfterMonotone(p[n..], q[n..]);
  }

  /** Once the opening quote has been found, more input finds the same one. */
  lemma AreaMonotone(p: string, q: string, key: string)
    requires p <= q && Area(p, key).Some?
    ensures Area(q, key).Some? && Area(p, key).value <= Area(q, key).value
  {
    TrimMonotone(p, q);
    FenceIsComplete(Trim(p));
    UnfenceMonotone(Trim(p), Trim(q));
    TrimMonotone(Unfence(Trim(p)), Unfence(Trim(q)));
    AreaInMonotone(Trim(Unfence(Trim(p))), Trim(Unfence(Trim(q))), key);
  }

  /** A text in which key, colon and quote were found is long enough to show
      its whole fence. */
  lemma FenceIsComplete(f: string)
    requires |Trim(Unfence(f))| >= 4
    ensures |f| >= 3 && (StartsWith(f, "```") ==> |f| >= 7)
  {
    var u := Unfence(f);
    var n := TrimStartSuffix(u);
    TrimEndPrefix(TrimStart(u));
    assert |u| >= 4;
    assert StartsWith(f, "```") ==> |f| >= |u| + 3;
  }

  /** Streaming is prefix-monotone: whatever has been extracted from a prefix of
      the stream is a prefix of what is extracted from more of it. */
  lemma ExtractMonotone(p: string, q: string, key: string)
    requires p <= q
    ensures Extract(p, key) <= Extract(q, key)
  {
    if Area(p, key).Some? {
      AreaMonotone(p, q, key);
      ScanMonotone(Area(p, key).value[1..], Area(q, key).value[1..], false);
    }
  }

  // ---------- reading back a printed object ----------

  function Hex(n: int): char
    requires 0 <= n < 16
  {
    "0123456789abcdef"[n]
  }

  /** String escapes of section 7 of RFC 8259: quotation mark, reverse solidus
      and control characters, with the short forms where there is one. */
  function EscapeChar(c: char): string {
    var n := c as int;
    if c == '"' then "\\\""
    else if c == '\\' then "\\\\"
    else if n == 8 then "\\b"
    else if n == 9 then "\\t"
    else if n == 10 then "\\n"
    else if n == 12 then "\\f"
    else if n == 13 then "\\r"
    else if n < 32 then "\\u00" + [Hex(n / 16), Hex(n % 16)]
    else [c]
  }

  function Escape(v: string): string {
    if v == [] then [] else EscapeChar(v[0]) + Escape(v[1..])
  }

  /** Characters whose escape the reader undoes: not a control character, or
      newline or tab. */
  predicate Readable(c: char) { c as int >= 32 || c == '\n' || c == '\t' }

  /** What the reader makes of one escaped character. */
  function ReadBack(c: char): string {
    if Readable(c) then [c] else EscapeChar(c)[1..]
  }

  function ReadBackAll(v: string): string {
    if v == [] then [] else ReadBack(v[0]) + ReadBackAll(v[1..])
  }

  lemma ScanChar(c: char, rest: string)
    ensures Scan(EscapeChar(c) + rest, false) == ReadBack(c) + Scan(rest, false)
  {
    hide Scan;
    var e := EscapeChar(c);
    if |e| == 1 {
      ScanPlain(c, rest);
    } else if |e| == 2 {
      ScanShort(e[1], rest);
      assert e == ['\\', e[1]];
    } else {
      ScanUnicode(e[4], e[5], rest);
      assert e == "\\u00" + [e[4], e[5]];
      assert e[1..] == ['u', '0', '0', e[4], e[5]];
    }
  }

  lemma ScanUnicode(a: char, b: char, rest: string)
    requires a != '\\' && a != '"' && b != '\\' && b != '"'
    ensures Scan("\\u00" + [a, b] + rest, false) == ['u', '0', '0', a, b] + Scan(rest, false)
  {
    hide Scan;
    var s := [a] + ([b] + rest);
    Spell(a, b, rest);
    Spell(a, b, Scan(rest, false));
    ScanShort('u', ['0'] + (['0'] + s));
    ScanPlain('0', ['0'] + s);
    ScanPlain('0', s);
    ScanPlain(a, [b] + rest);
    ScanPlain(b, rest);
  }

  lemma Spell(a: char, b: char, rest: string)
    ensures "\\u00" + [a, b] + rest == ['\\', 'u'] + (['0'] + (['0'] + ([a] + ([b] + rest))))
    ensures ['u', '0', '0', a, b] + rest == ['u'] + (['0'] + (['0'] + ([a] + ([b] + rest))))
  {
  }

  lemma ScanShort(c: char, rest: string)
    ensures Scan(['\\', c] + rest, false) == [Unescaped(c)] + Scan(rest, false)
  {
    assert (['\\', c] + rest)[1..][1..] == rest;
  }

  lemma ScanPlain(c: char, rest: string)
    requires c != '\\' && c != '"'
    ensures Scan([c] + rest, false) == [c] + Scan(rest, false)
  {
    assert ([c] + rest)[1..] == rest;
  }

  lemma ScanClosing(rest: string)
    ensures Scan(Escape([]) + ("\"" + rest), false) == []
  {
  }

  lemma Associate<T>(a: seq<T>, b: seq<T>, c: seq<T>)
    ensures (a + b) + c == a + (b + c)
  {
  }

  lemma {:induction false} ScanEscaped(v: string, rest: string)
    ensures Scan(Escape(v) + ("\"" + rest), false) == ReadBackAll(v)
  {
    hide EscapeChar, ReadBack, Scan;
    if v == [] {
      ScanClosing(rest);
    } else {
      ScanEscaped(v[1..], rest);
      ScanChar(v[0], Escape(v[1..]) + ("\"" + rest));
      Associate(EscapeChar(v[0]), Escape(v[1..]), "\"" + rest);
    }
  }

  lemma {:induction false} ReadBackExactly(v: string)
    ensures ReadBackAll(v) == v <==> forall c | c in v :: Readable(c)
  {
    if v != [] {
      ReadBackExactly(v[1..]);
      assert v == [v[0]] + v[1..];
      if Readable(v[0]) {
        assert ReadBackAll(v)[1..] == ReadBackAll(v[1..]);
        assert forall c :: c in v <==> c == v[0] || c in v[1..];
      } else {
        assert ReadBackAll(v)[0] == EscapeChar(v[0])[1] != v[0];
      }
    }
  }

  /** White space and an optional code fence around a generated object. */
  datatype Layout = Layout(lead: string, fence: string, inFence: string,
                           beforeKey: string, beforeColon: string, beforeValue: string)
  {
    ghost predicate Valid() {
      && (fence == "" || fence == "```" || fence == "```json")
      && Blank(lead) && Blank(inFence) && Blank(beforeKey) && Blank(beforeColon) && Blank(beforeValue)
    }
  }

  ghost predicate Blank(s: string) { forall c | c in s :: IsBlank(c) }

  /** The white space JSON allows between tokens is among it. */
  lemma JsonSpaceIsBlank(s: string)
    ensures (forall c | c in s :: c == ' ' || c == '\t' || c == '\n' || c == '\r') ==> Blank(s)
  {
  }

  /** From the opening brace to the closing quote of the first member's value. */
  function Head(l: Layout, key: string, v: string): string {
    "{" + (l.beforeKey + (Quoted(key) + (l.beforeColon + (":" + (l.beforeValue + Quoted(Escape(v)))))))
  }

  function Printed(l: Layout, key: string, v: string, rest: string): string {
    l.lead + (l.fence + (l.inFence + Head(l, key, v))) + rest
  }

  lemma {:induction false} TrimDropsBlank(a: string, x: string)
    requires Blank(a) && x != [] && !IsBlank(x[0]) && !IsBlank(x[|x| - 1])
    ensures Trim(a + x) == x
  {
    if a == [] {
      assert a + x == x;
      assert TrimStart(x) == x;
    } else {
      assert (a + x)[1..] == a[1..] + x;
      assert a[0] in a;
      TrimDropsBlank(a[1..], x);
    }
  }

  lemma {:induction false} IndexAfter(a: string, t: string, b: string)
    requires t != [] && t[0] !in a
    ensures IndexOf(a + (t + b), t) == |a|
  {
    var s := a + (t + b);
    if a == [] {
      assert s[..|t|] == t;
    } else {
      assert s[0] == a[0] && a[0] in a;
      assert s[1..] == a[1..] + (t + b);
      IndexAfter(a[1..], t, b);
    }
  }

  lemma HeadEnds(l: Layout, key: string, v: string)
    ensures var h := Head(l, key, v); |h| > 2 && h[0] == '{' && h[|h| - 1] == '"'
  {
    var q := Quoted(Escape(v));
    var t := l.beforeColon + (":" + (l.beforeValue + q));
    assert q[|q| - 1] == '"' && t[|t| - 1] == '"';
  }

  /** White space and fence are stripped from a printed object. */
  lemma FenceStripped(l: Layout, h: string)
    requires l.Valid() && |h| > 2 && h[0] == '{' && h[|h| - 1] == '"'
    ensures Trim(Unfence(Trim(l.lead + (l.fence + (l.inFence + h))))) == h
  {
    hide Trim;
    var inner := l.inFence + h;
    TrimDropsBlank(l.inFence, h);
    if l.fence == "" {
      assert l.fence + inner == inner;
      assert l.lead + inner == (l.lead + l.inFence) + h;
      TrimDropsBlank(l.lead + l.inFence, h);
      assert h[..1] == "{";
      assert !StartsWith(h, "```") && !StartsWith(h, "```json");
      TrimDropsBlank([], h);
      assert [] + h == h;
    } else {
      var fenced := l.fence + inner;
      assert fenced[|fenced| - 1] == h[|h| - 1];
      TrimDropsBlank(l.lead, fenced);
      assert fenced[|l.fence|..] == inner && fenced[..|l.fence|] == l.fence;
      if l.fence == "```" {
        assert inner[0] != 'j' by {
          assert l.inFence != [] ==> l.inFence[0] in l.inFence;
        }
        assert fenced[3] == inner[0] && "```json"[3] == 'j';
        assert !StartsWith(fenced, "```json");
      }
    }
  }

  lemma ValueOfHead(blank: string, gap: string, v: string)
    requires Blank(blank) && Blank(gap)
    ensures ValueAfter(blank + (":" + (gap + Quoted(Escape(v))))) == Some(Quoted(Escape(v)))
  {
    var q := Quoted(Escape(v));
    var after := blank + (":" + (gap + q));
    assert ':' !in blank;
    IndexAfter(blank, ":", gap + q);
    assert after[|blank| + 1..] == gap + q;
    assert q[0] == '"' && q[|q| - 1] == '"' && q[..1] == "\"";
    TrimDropsBlank(gap, q);
  }

  lemma DropTwo<T>(a: seq<T>, b: seq<T>, c: seq<T>)
    ensures (a + (b + c))[|a| + |b|..] == c
  {
  }

  lemma AreaOfHead(l: Layout, key: string, v: string)
    requires l.Valid()
    ensures AreaIn(Head(l, key, v), key) == Some(Quoted(Escape(v)))
  {
    hide IndexOf, ValueAfter, Escape;
    var after := l.beforeColon + (":" + (l.beforeValue + Quoted(Escape(v))));
    var start := "{" + l.beforeKey;
    Associate("{", l.beforeKey, Quoted(key) + after);
    assert '"' !in start;
    IndexAfter(start, Quoted(key), after);
    DropTwo(start, Quoted(key), after);
    ValueOfHead(l.beforeColon, l.beforeValue, v);
  }

  lemma PrintedReadsBack(l: Layout, key: string, v: string, rest: string)
    requires l.Valid()
    ensures Extract(Printed(l, key, v, rest), key) == ReadBackAll(v)
  {
    var head, full := l.lead + (l.fence + (l.inFence + Head(l, key, v))), Printed(l, key, v, rest);
    assert full == head + rest;
    HeadEnds(l, key, v);
    FenceStripped(l, Head(l, key, v));
    AreaOfHead(l, key, v);
    AreaMonotone(head, full, key);
    ClosedArea(Area(full, key).value, v);
  }

  lemma ClosedArea(b: string, v: string)
    requires Quoted(Escape(v)) <= b
    ensures Scan(b[1..], false) == ReadBackAll(v)
  {
    var more := b[|Escape(v)| + 2..];
    assert b[1..] == Escape(v) + ("\"" + more);
    ScanEscaped(v, more);
  }

  /** On an object printed with standard escapes whose first key is the wanted
      one, whatever follows the value, the reader returns the original string
      exactly when it has no control character other than newline and tab. */
  lemma ExtractReadsPrinted(l: Layout, key: string, v: string, rest: string)
    requires l.Valid()
    ensures Extract(Printed(l, key, v, rest), key) == v <==> forall c | c in v :: Readable(c)
  {
    PrintedReadsBack(l, key, v, rest);
    ReadBackExactly(v);
  }

  /** While the object is still arriving the shown text is a prefix of the final one. */
  lemma PartialIsPrefix(l: Layout, key: string, v: string, rest: string, shown: string)
    requires l.Valid() && shown <= Printed(l, key, v, rest) && forall c | c in v :: Readable(c)
    ensures Extract(shown, key) <= v
  {
    ExtractMonotone(shown, Printed(l, key, v, rest), key);
    ExtractReadsPrinted(l, key, v, rest);
  }
}
