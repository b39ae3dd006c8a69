/** The incremental reader on printed objects with several string members: which
    member it reads when the wanted one is not the first. */
module PrintedObject {
  import opened Options
  import opened Text
  import opened StreamingOption

  /** A member with the white space printed around its parts. */
  datatype Member = Member(key: string, value: string,
                           beforeKey: string, beforeColon: string, beforeValue: string, behind: string)

  predicate NameChar(c: char) { '0' <= c <= '9' || 'A' <= c <= 'Z' || 'a' <= c <= 'z' || c == '_' }

  ghost predicate Name(k: string) { k != "" && forall c | c in k :: NameChar(c) }

  ghost predicate Valid(m: Member) {
    Name(m.key) && Blank(m.beforeKey) && Blank(m.beforeColon) && Blank(m.beforeValue) && Blank(m.behind)
  }

  ghost predicate AllValid(ms: seq<Member>) { forall m | m in ms :: Valid(m) }

  /** From the colon to the closing quote of the value. */
  function Rest(m: Member): string { m.beforeColon + (":" + (m.beforeValue + Quoted(Escape(m.value)))) }

  function Opening(m: Member): string { m.beforeKey + (Quoted(m.key) + Rest(m)) }

  /** Members with the comma after each. */
  function Earlier(ms: seq<Member>): string {
    if ms == [] then [] else Opening(ms[0]) + (ms[0].behind + ("," + Earlier(ms[1..])))
  }

  function Members(ms: seq<Member>): string
    requires ms != []
  {
    Opening(ms[0]) + (ms[0].behind + if |ms| == 1 then [] else "," + Members(ms[1..]))
  }

  /** The whole text: white space and fence, the members, and whatever follows. */
  function Printed(l: Layout, ms: seq<Member>, end: string): string
    requires ms != []
  {
    l.lead + (l.fence + (l.inFence + ("{" + Members(ms)))) + end
  }

  /** What follows the first occurrence of the quoted key. */
  function AfterKey(s: string, key: string): Option<string> {
    var i := IndexOf(s, Quoted(key));
    if i < 0 then None else Some(s[i + |key| + 2..])
  }

  /** The printed value contains the quoted key: it is the key, or ends in a quote
      followed by the key. */
  predicate Mentions(v: string, key: string) { v == key || EndsIn(v, key) }

  predicate EndsIn(v: string, key: string) { |v| > |key| && v[|v| - |key| - 1..] == "\"" + key }

  // ---------- finding the quoted key piece by piece ----------

  lemma AfterKeyStep(s: string, key: string)
    ensures AfterKey(s, key) == if StartsWith(s, Quoted(key)) then Some(s[|key| + 2..])
                                else if s == [] then None else AfterKey(s[1..], key)
  {
    if !StartsWith(s, Quoted(key)) && s != [] {
      var i := IndexOf(s[1..], Quoted(key));
      assert i >= 0 ==> s[1..][i + |key| + 2..] == s[i + 1 + |key| + 2..];
    }
  }

  lemma {:induction false} AfterKeySkips(a: string, b: string, key: string)
    requires '"' !in a
    ensures AfterKey(a + b, key) == AfterKey(b, key)
  {
    hide AfterKey;
    if a == [] {
      assert a + b == b;
    } else {
      assert (a + b)[0] == a[0] && (a + b)[1..] == a[1..] + b;
      AfterKeyStep(a + b, key);
      AfterKeySkips(a[1..], b, key);
    }
  }

  /** A quote that does not open the key is passed. */
  lemma AfterKeyQuote(x: string, key: string)
    ensures AfterKey("\"" + x, key)
         == if StartsWith(x, key + "\"") then Some(x[|key| + 1..]) else AfterKey(x, key)
  {
    hide AfterKey;
    var s := "\"" + x;
    AfterKeyStep(s, key);
    assert s[1..] == x;
    assert Quoted(key) == "\"" + (key + "\"");
    if StartsWith(x, key + "\"") {
      assert s[..|key| + 2] == "\"" + x[..|key| + 1];
      assert s[|key| + 2..] == x[|key| + 1..];
    }
  }

  /** A closing quote opens no key. */
  lemma AfterClosing(b: string, key: string)
    requires key != "" && b != [] && b[0] != key[0]
    ensures AfterKey("\"" + b, key) == AfterKey(b, key)
  {
    hide AfterKey;
    AfterKeyQuote(b, key);
  }

  lemma {:induction false} SameName(k: string, key: string, b: string)
    requires '"' !in k && '"' !in key
    ensures StartsWith(k + ("\"" + b), key + "\"") <==> k == key
  {
    var x, t := k + ("\"" + b), key + "\"";
    if StartsWith(x, t) {
      assert x[|k|] == '"' && t[|key|] == '"' && x[|key|] == '"';
      assert forall i | 0 <= i < |k| :: x[i] == k[i] && k[i] in k;
      assert forall i | 0 <= i < |key| :: t[i] == key[i] && key[i] in key && x[i] == key[i];
      assert |k| == |key|;
      assert k == x[..|k|] == key;
    }
  }

  lemma NameHasNoQuote(k: string)
    requires Name(k)
    ensures '"' !in k && ':' !in k && '\\' !in k
  {
  }

  lemma AfterKeyName(k: string, b: string, key: string)
    requires Name(k) && Name(key) && b != [] && !NameChar(b[0])
    ensures AfterKey(Quoted(k) + b, key) == if k == key then Some(b) else AfterKey(b, key)
  {
    hide AfterKey;
    NameHasNoQuote(k);
    NameHasNoQuote(key);
    assert key[0] in key;
    var x := k + ("\"" + b);
    assert Quoted(k) + b == "\"" + x;
    AfterKeyQuote(x, key);
    SameName(k, key, b);
    if k == key {
      assert x[|key| + 1..] == b;
    } else {
      AfterKeySkips(k, "\"" + b, key);
      AfterClosing(b, key);
    }
  }

  // ---------- inside a printed value ----------

  lemma EscapeNothing(b: string)
    ensures Escape([]) + ("\"" + b) == "\"" + b
  {
  }

  lemma EscapeNext(v: string, b: string)
    requires v != []
    ensures Escape(v) + ("\"" + b) == EscapeChar(v[0]) + (Escape(v[1..]) + ("\"" + b))
  {
    hide EscapeChar;
    Associate(EscapeChar(v[0]), Escape(v[1..]), "\"" + b);
  }

  lemma QuoteEscaped(y: string)
    ensures EscapeChar('"') + y == "\\" + ("\"" + y)
  {
  }

  /** The rest of a value, up to its closing quote, spells the key exactly if it is it. */
  lemma {:induction false} ValueIsKey(v: string, key: string, b: string)
    requires forall c | c in key :: NameChar(c)
    ensures StartsWith(Escape(v) + ("\"" + b), key + "\"") <==> v == key
    ensures v == key ==> (Escape(v) + ("\"" + b))[|key| + 1..] == b
  {
    var x, t := Escape(v) + ("\"" + b), key + "\"";
    if v == [] {
      assert x == "\"" + b;
      if key != [] { assert key[0] in key && t[0] == key[0]; }
    } else {
      var e, y := EscapeChar(v[0]), Escape(v[1..]) + ("\"" + b);
      EscapeNext(v, b);
      assert x[0] == e[0];
      if key == [] {
        assert t == "\"" && e[0] != '"';
      } else {
        assert key[0] in key && t[0] == key[0];
        if NameChar(v[0]) && v[0] == key[0] {
          ValueIsKey(v[1..], key[1..], b);
          assert x[1..] == y && t[1..] == key[1..] + "\"";
          StartsAfterOne(x, t);
          assert v == [v[0]] + v[1..] && key == [key[0]] + key[1..];
        } else {
          assert !NameChar(v[0]) ==> !NameChar(e[0]);
        }
      }
    }
  }

  lemma StartsAfterOne(x: string, t: string)
    requires x != [] && t != [] && x[0] == t[0]
    ensures StartsWith(x, t) <==> StartsWith(x[1..], t[1..])
  {
    if StartsWith(x, t) {
      assert x[1..][..|t| - 1] == x[..|t|][1..];
    }
    if StartsWith(x[1..], t[1..]) {
      assert x[..|t|] == [x[0]] + x[1..][..|t| - 1];
    }
  }

  lemma EndsInStep(v: string, key: string)
    requires v != []
    ensures EndsIn(v, key) <==> (v[0] == '"' && v[1..] == key) || EndsIn(v[1..], key)
  {
    if |v| == |key| + 1 {
      assert v[0..] == v && v == [v[0]] + v[1..];
    } else if |v| > |key| + 1 {
      assert v[1..][|v| - 1 - |key| - 1..] == v[|v| - |key| - 1..];
    }
  }

  /** Behind the opening quote only a quote in the value can open the key. */
  lemma {:induction false} AfterValueRest(v: string, b: string, key: string)
    requires Name(key) && b != [] && !NameChar(b[0])
    ensures AfterKey(Escape(v) + ("\"" + b), key) == if EndsIn(v, key) then Some(b) else AfterKey(b, key)
  {
    hide AfterKey, EndsIn, Escape, EscapeChar;
    assert key[0] in key;
    if v == [] {
      EscapeNothing(b);
      AfterClosing(b, key);
      assert !EndsIn(v, key) by { NothingEnds(key); }
    } else {
      var y := Escape(v[1..]) + ("\"" + b);
      EscapeNext(v, b);
      EndsInStep(v, key);
      AfterValueRest(v[1..], b, key);
      if v[0] == '"' {
        QuoteEscaped(y);
        AfterKeySkips("\\", "\"" + y, key);
        AfterKeyQuote(y, key);
        ValueIsKey(v[1..], key, b);
      } else {
        EscapeHasNoQuote(v[0]);
        AfterKeySkips(EscapeChar(v[0]), y, key);
      }
    }
  }

  lemma NothingEnds(key: string)
    ensures !EndsIn([], key)
  {
  }

  lemma EscapeHasNoQuote(c: char)
    requires c != '"'
    ensures '"' !in EscapeChar(c)
  {
    var n := c as int;
    assert n < 32 ==> Hex(n / 16) != '"' && Hex(n % 16) != '"';
  }

  /** A printed value is passed, unless it mentions the key: then the key is found
      in it and what follows starts behind its closing quote. */
  lemma AfterKeyValue(v: string, b: string, key: string)
    requires Name(key) && b != [] && !NameChar(b[0])
    ensures AfterKey(Quoted(Escape(v)) + b, key) == if Mentions(v, key) then Some(b) else AfterKey(b, key)
  {
    hide AfterKey, Escape;
    var x := Escape(v) + ("\"" + b);
    assert Quoted(Escape(v)) + b == "\"" + x;
    AfterKeyQuote(x, key);
    ValueIsKey(v, key, b);
    AfterValueRest(v, b, key);
  }

  // ---------- over the members ----------

  lemma BlankHasNo(s: string)
    requires Blank(s)
    ensures '"' !in s && ':' !in s && forall i | 0 <= i < |s| :: !NameChar(s[i])
  {
    assert forall i | 0 <= i < |s| :: s[i] in s;
  }

  /** Past a member that does not mention the key, up to its comma. */
  lemma AfterMember(m: Member, b: string, key: string)
    requires Valid(m) && Name(key)
    ensures AfterKey(Opening(m) + (m.behind + ("," + b)), key)
            == if m.key == key then Some(Rest(m) + (m.behind + ("," + b)))
               else if Mentions(m.value, key) then Some(m.behind + ("," + b))
               else AfterKey(b, key)
  {
    hide AfterKey, Escape, Mentions, Name, Blank;
    var tail := m.behind + ("," + b);
    BlankHasNo(m.beforeKey);
    BlankHasNo(m.beforeColon);
    BlankHasNo(m.beforeValue);
    BlankHasNo(m.behind);
    assert Opening(m) + tail == m.beforeKey + (Quoted(m.key) + (Rest(m) + tail));
    AfterKeySkips(m.beforeKey, Quoted(m.key) + (Rest(m) + tail), key);
    assert !NameChar((Rest(m) + tail)[0]);
    AfterKeyName(m.key, Rest(m) + tail, key);
    if m.key != key {
      var gap := m.beforeColon + (":" + m.beforeValue);
      assert Rest(m) + tail == gap + (Quoted(Escape(m.value)) + tail);
      AfterKeySkips(gap, Quoted(Escape(m.value)) + tail, key);
      assert !NameChar(tail[0]);
      AfterKeyValue(m.value, tail, key);
      var comma := m.behind + ",";
      assert tail == comma + b;
      AfterKeySkips(comma, b, key);
    }
  }

  /** None of the members has the key as its name or mentions it in its value. */
  ghost predicate Silent(ms: seq<Member>, key: string) {
    forall m | m in ms :: m.key != key && !Mentions(m.value, key)
  }

  lemma {:induction false} AfterSilent(ms: seq<Member>, b: string, key: string)
    requires AllValid(ms) && Name(key) && Silent(ms, key)
    ensures AfterKey(Earlier(ms) + b, key) == AfterKey(b, key)
  {
    hide AfterKey, Opening, Valid, Mentions, Name;
    if ms == [] {
      assert Earlier(ms) + b == b;
    } else {
      var m, rest := ms[0], Earlier(ms[1..]) + b;
      assert m in ms && forall x | x in ms[1..] :: x in ms;
      assert Earlier(ms) + b == Opening(m) + (m.behind + ("," + rest));
      AfterMember(m, rest, key);
      AfterSilent(ms[1..], b, key);
    }
  }

  /** The text up to the closing quote of `m`'s value. */
  function Head(ms: seq<Member>, m: Member): string { "{" + (Earlier(ms) + Opening(m)) }

  /** After text without a colon: the next member's value. */
  lemma ValueBehind(a: string, gap: string, v: string)
    requires ':' !in a && Blank(gap)
    ensures ValueAfter(a + (":" + (gap + Quoted(Escape(v))))) == Some(Quoted(Escape(v)))
  {
    hide Escape, Trim;
    var q := Quoted(Escape(v));
    IndexAfter(a, ":", gap + q);
    assert (a + (":" + (gap + q)))[|a| + 1..] == gap + q;
    assert q[0] == '"' && q[|q| - 1] == '"' && q[..1] == "\"";
    TrimDropsBlank(gap, q);
  }

  /** The key is the member's own. */
  lemma OwnKeyFound(ms: seq<Member>, m: Member, key: string)
    requires AllValid(ms) && Valid(m) && Name(key) && Silent(ms, key) && m.key == key
    ensures AreaIn(Head(ms, m), key) == Some(Quoted(Escape(m.value)))
  {
    hide AfterKey, IndexOf, ValueAfter, Escape, Earlier, Silent, Name;
    BlankHasNo(m.beforeKey);
    BlankHasNo(m.beforeColon);
    AfterKeySkips("{", Earlier(ms) + Opening(m), key);
    AfterSilent(ms, Opening(m), key);
    AfterKeySkips(m.beforeKey, Quoted(m.key) + Rest(m), key);
    assert !NameChar(Rest(m)[0]);
    AfterKeyName(m.key, Rest(m), key);
    ValueBehind(m.beforeColon, m.beforeValue, m.value);
    AreaIsAfterKey(Head(ms, m), key);
  }

  lemma AreaIsAfterKey(s: string, key: string)
    ensures AreaIn(s, key) == match AfterKey(s, key) case None => None case Some(after) => ValueAfter(after)
  {
  }

  /** The key stands in the value of the member before: its value is passed over
      and the next member's is read. */
  lemma KeyFoundBefore(ms: seq<Member>, before: Member, m: Member, key: string)
    requires AllValid(ms) && Valid(before) && Valid(m) && Name(key)
    requires Silent(ms, key) && before.key != key && Mentions(before.value, key)
    ensures AreaIn(Head(ms + [before], m), key) == Some(Quoted(Escape(m.value)))
  {
    hide AfterKey, IndexOf, ValueAfter, Escape, Silent, Opening, Valid, Mentions;
    var b := Opening(m);
    var last := Opening(before) + (before.behind + ("," + b));
    EarlierAppend(ms, before);
    assert Head(ms + [before], m) == "{" + (Earlier(ms) + last);
    AfterKeySkips("{", Earlier(ms) + last, key);
    AfterSilent(ms, last, key);
    AfterMember(before, b, key);
    NextValue(before, m);
    AreaIsAfterKey(Head(ms + [before], m), key);
  }

  lemma NextValue(before: Member, m: Member)
    requires Valid(before) && Valid(m)
    ensures ValueAfter(before.behind + ("," + Opening(m))) == Some(Quoted(Escape(m.value)))
  {
    hide Escape, ValueAfter, Blank, Name;
    BlankHasNo(before.behind);
    BlankHasNo(m.beforeKey);
    BlankHasNo(m.beforeColon);
    NameHasNoQuote(m.key);
    var a := before.behind + ("," + (m.beforeKey + (Quoted(m.key) + m.beforeColon)));
    assert before.behind + ("," + Opening(m)) == a + (":" + (m.beforeValue + Quoted(Escape(m.value))));
    ValueBehind(a, m.beforeValue, m.value);
  }

  lemma {:induction false} EarlierAppend(ms: seq<Member>, m: Member)
    ensures Earlier(ms + [m]) == Earlier(ms) + (Opening(m) + (m.behind + ","))
  {
    hide Opening;
    if ms == [] {
      assert [] + [m] == [m] && [m][1..] == [];
      assert Earlier([m]) == Opening(m) + (m.behind + ("," + []));
    } else {
      assert (ms + [m])[1..] == ms[1..] + [m];
      EarlierAppend(ms[1..], m);
    }
  }

  // ---------- which member is read ----------

  /** Position of the member the reader reads: that of the first member named by
      the key, or the one after the first whose value mentions it. */
  function Reads(ms: seq<Member>, key: string): nat {
    if ms == [] || ms[0].key == key then 0
    else if Mentions(ms[0].value, key) then 1
    else 1 + Reads(ms[1..], key)
  }

  lemma {:induction false} ReadsIs(ms: seq<Member>, key: string)
    requires Reads(ms, key) < |ms|
    ensures var r := Reads(ms, key);
            || (Silent(ms[..r], key) && ms[r].key == key)
            || (r > 0 && Silent(ms[..r - 1], key) && ms[r - 1].key != key && Mentions(ms[r - 1].value, key))
  {
    hide Mentions;
    if ms[0].key != key && !Mentions(ms[0].value, key) {
      ReadsIs(ms[1..], key);
      var r := Reads(ms, key);
      assert ms[..r] == [ms[0]] + ms[1..][..r - 1];
      if r > 1 { assert ms[..r - 1] == [ms[0]] + ms[1..][..r - 2]; }
    }
  }

  lemma HeadFound(ms: seq<Member>, key: string)
    requires AllValid(ms) && Name(key) && Reads(ms, key) < |ms|
    ensures var r := Reads(ms, key); AreaIn(Head(ms[..r], ms[r]), key) == Some(Quoted(Escape(ms[r].value)))
  {
    hide AreaIn, Escape, Head, Valid, Mentions, Name, Reads;
    ReadsIs(ms, key);
    var r := Reads(ms, key);
    assert ms[r] in ms && forall m | m in ms[..r] :: m in ms;
    if Silent(ms[..r], key) && ms[r].key == key {
      OwnKeyFound(ms[..r], ms[r], key);
    } else {
      assert ms[r - 1] in ms && forall m | m in ms[..r - 1] :: m in ms;
      assert ms[..r] == ms[..r - 1] + [ms[r - 1]];
      KeyFoundBefore(ms[..r - 1], ms[r - 1], ms[r], key);
    }
  }

  /** The printed members start with those before `r` and the value of `r`. */
  lemma {:induction false} MembersStart(ms: seq<Member>, r: nat) returns (rest: string)
    requires r < |ms|
    ensures Members(ms) == Earlier(ms[..r]) + Opening(ms[r]) + rest
  {
    hide Opening;
    var m := ms[0];
    if r == 0 {
      rest := m.behind + if |ms| == 1 then [] else "," + Members(ms[1..]);
      assert Earlier(ms[..0]) + Opening(m) == Opening(m);
    } else {
      rest := MembersStart(ms[1..], r - 1);
      assert ms[..r][1..] == ms[1..][..r - 1];
      assert Earlier(ms[..r]) == Opening(m) + (m.behind + ("," + Earlier(ms[1..][..r - 1])));
    }
  }

  lemma HeadShape(ms: seq<Member>, m: Member)
    ensures var h := Head(ms, m); |h| > 2 && h[0] == '{' && h[|h| - 1] == '"'
  {
    hide Escape;
    var q := Quoted(Escape(m.value));
    assert Rest(m)[|Rest(m)| - 1] == q[|q| - 1] == '"';
  }

  /** On a printed object of string members the reader returns the value of the
      member at `Reads`, whatever follows. */
  lemma ObjectReadsBack(l: Layout, ms: seq<Member>, end: string, key: string)
    requires l.Valid() && AllValid(ms) && Name(key) && Reads(ms, key) < |ms|
    ensures Extract(Printed(l, ms, end), key) == ReadBackAll(ms[Reads(ms, key)].value)
  {
    hide Trim, Unfence, Members, Earlier, Opening, Escape, AllValid, Name, Reads, AreaIn, Scan;
    var r := Reads(ms, key);
    var head, full := Head(ms[..r], ms[r]), Printed(l, ms, end);
    var rest := MembersStart(ms, r);
    var shown := l.lead + (l.fence + (l.inFence + head));
    assert full == shown + (rest + end);
    HeadShape(ms[..r], ms[r]);
    FenceStripped(l, head);
    HeadFound(ms, key);
    AreaMonotone(shown, full, key);
    ClosedArea(Area(full, key).value, ms[r].value);
  }

  /** The reader reads the wanted member exactly when no member before it is named
      by the key and no value mentions the key, save the value right before it. */
  lemma {:induction false} ReadsWanted(ms: seq<Member>, w: nat, key: string)
    requires w < |ms| && ms[w].key == key
    ensures Reads(ms, key) <= w
    ensures Reads(ms, key) == w
            <==> forall i | 0 <= i < w :: ms[i].key != key && (i + 1 < w ==> !Mentions(ms[i].value, key))
  {
    hide Mentions;
    if w > 0 && ms[0].key != key {
      if Mentions(ms[0].value, key) {
        assert w > 1 ==> 0 + 1 < w;
      } else {
        ReadsWanted(ms[1..], w - 1, key);
        assert forall i | 0 <= i < w - 1 :: ms[1..][i] == ms[i + 1];
        assert forall i | 0 < i < w :: ms[i] == ms[1..][i - 1];
      }
    }
  }

  /** A string member anywhere in a printed object, with any text behind the object:
      the reader returns it exactly when the member it reads holds the same text
      with no control character but newline and tab to spoil it. */
  lemma MemberReadsBack(l: Layout, ms: seq<Member>, w: nat, end: string, key: string)
    requires l.Valid() && AllValid(ms) && w < |ms| && ms[w].key == key
    ensures Reads(ms, key) <= w
    ensures Extract(Printed(l, ms, end), key) == ms[w].value
            <==> ReadBackAll(ms[Reads(ms, key)].value) == ms[w].value
    ensures (forall i | 0 <= i < w :: ms[i].key != key && (i + 1 < w ==> !Mentions(ms[i].value, key))) ==>
              (Extract(Printed(l, ms, end), key) == ms[w].value <==> forall c | c in ms[w].value :: Readable(c))
  {
    hide Extract, Printed, ReadBackAll, Mentions, Reads, Readable;
    assert Name(key) by { assert Valid(ms[w]); }
    ReadsWanted(ms, w, key);
    ObjectReadsBack(l, ms, end, key);
    ReadBackExactly(ms[w].value);
  }
}
