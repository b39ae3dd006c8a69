/** Removal of vault-token markers from generated messages. */
module Sanitiser {
  import opened Text

  /** `[A-Z0-9_]`. */
  predicate InClass(c: char) { 'A' <= c <= 'Z' || '0' <= c <= '9' || c == '_' }

  function ClassRun(s: string): (n: nat)
    ensures n <= |s| && (forall i | 0 <= i < n :: InClass(s[i])) && (n < |s| ==> !InClass(s[n]))
  {
    if s == [] || !InClass(s[0]) then 0 else 1 + ClassRun(s[1..])
  }

  const OPEN := "<PII_"
  const REPLACEMENT := "[Customer]"

  /** Length of the match of `<PII_[A-Z0-9_]+>` at the start of `s`, or 0. */
  function Match(s: string): (n: nat)
    ensures n <= |s| && (n > 0 ==> n >= 7 && s[0] == '<' && forall i | 0 <= i < n :: s[i] != '[')
  {
    if !StartsWith(s, OPEN) then 0
    else
      var k := ClassRun(s[5..]);
      assert forall i | 0 <= i < k :: s[5 + i] == s[5..][i];
      if k > 0 && 5 + k < |s| && s[5 + k] == '>' then
        assert forall i | 5 <= i < 5 + k :: s[i] == s[5..][i - 5];
        k + 6
      else 0
  }

  /** From `i` up to before `j` stands `<PII_`, one or more capital letters, digits
      and underscores, and `>`. */
  ghost predicate TokenAt(s: string, i: nat, j: nat) {
    && i + 7 <= j <= |s| && s[i] == '<' && s[i + 1] == 'P' && s[i + 2] == 'I' && s[i + 3] == 'I' && s[i + 4] == '_'
    && s[j - 1] == '>'
    && forall k | i + 5 <= k < j - 1 :: 'A' <= s[k] <= 'Z' || '0' <= s[k] <= '9' || s[k] == '_'
  }

  ghost predicate HasToken(s: string) { exists i: nat, j: nat :: TokenAt(s, i, j) }

  lemma RunIs(s: string, n: nat)
    requires n <= |s| && (forall i | 0 <= i < n :: InClass(s[i])) && (n < |s| ==> !InClass(s[n]))
    ensures ClassRun(s) == n
  {
  }

  /** A match is a token at the start of the text, and the only one there. */
  lemma MatchIsToken(s: string, j: nat)
    ensures Match(s) == j && j > 0 <==> TokenAt(s, 0, j)
  {
    if TokenAt(s, 0, j) {
      assert s[..5] == OPEN;
      assert forall k | 0 <= k < |s| - 5 :: s[5..][k] == s[k + 5];
      RunIs(s[5..], j - 6);
    }
    if Match(s) == j && j > 0 {
      assert s[..5] == OPEN;
      assert forall k | 0 <= k < 5 :: s[k] == OPEN[k];
      assert forall k | 0 <= k < |s| - 5 :: s[5..][k] == s[k + 5];
    }
  }

  lemma TokenLater(s: string, i: nat, j: nat)
    requires i <= |s|
    ensures TokenAt(s, i, i + j) <==> TokenAt(s[i..], 0, j)
  {
    var t := s[i..];
    assert forall k | 0 <= k < |t| :: t[k] == s[i + k];
    if TokenAt(t, 0, j) {
      forall k | i + 5 <= k < i + j - 1 ensures InClass(s[k]) { assert t[k - i] == s[k]; }
    }
  }

  /** `sub`: every match replaced, scanning left to right. */
  function Sub(s: string): string
    decreases |s|
  {
    if s == [] then []
    else if Match(s) > 0 then REPLACEMENT + Sub(s[Match(s)..])
    else [s[0]] + Sub(s[1..])
  }

  predicate Found(s: string) {
    s != [] && (Match(s) > 0 || Found(s[1..]))
  }

  /** The message to use, and whether it was free of tokens. */
  function Sanitise(message: string): (string, bool) {
    if !Found(message) then (message, true) else (Sub(message), false)
  }

  lemma HasTokenNext(s: string)
    requires s != []
    ensures HasToken(s) <==> Match(s) > 0 || HasToken(s[1..])
  {
    hide Match;
    if HasToken(s) {
      var i: nat, j: nat :| TokenAt(s, i, j);
      if i == 0 {
        MatchIsToken(s, j);
      } else {
        TokenLater(s, i, j - i);
        assert s[1..][i - 1..] == s[i..];
        TokenLater(s[1..], i - 1, j - i);
      }
    }
    if Match(s) > 0 {
      MatchIsToken(s, Match(s));
    }
    if HasToken(s[1..]) {
      var i: nat, j: nat :| TokenAt(s[1..], i, j);
      TokenLater(s[1..], i, j - i);
      assert s[1..][i..] == s[i + 1..];
      TokenLater(s, i + 1, j - i);
    }
  }

  lemma {:induction false} FoundIsHasToken(s: string)
    ensures Found(s) <==> HasToken(s)
  {
    hide Match, TokenAt;
    if s == [] {
      NoTokenInNothing();
    } else {
      FoundIsHasToken(s[1..]);
      HasTokenNext(s);
    }
  }

  lemma NoTokenInNothing()
    ensures !HasToken([])
  {
  }

  /** Behind text without an angle bracket, a token is replaced by the word
      customer in brackets, and the text behind it is sanitised by itself. */
  lemma TokenIsReplaced(before: string, token: string, rest: string)
    requires '<' !in before && TokenAt(token, 0, |token|)
    ensures Sub(before + (token + rest)) == before + ("[Customer]" + Sub(rest))
  {
    hide Match;
    MatchIsToken(token, |token|);
    var w := token + rest;
    assert w[..|token|] == token[..|token|] && w[|token|..] == rest;
    MatchDependsOnPrefix(token, w);
    SubSkips(before, w);
  }

  lemma MatchedStart(s: string)
    ensures s != [] && Match(s) > 0 ==> Sub(s) != [] && Sub(s)[0] == '['
  {
  }

  /** Up to the first bracket the output is a copy of the input. */
  lemma {:induction false} CopiedPrefix(s: string, k: nat)
    requires k <= |Sub(s)| && forall i | 0 <= i < k :: Sub(s)[i] != '['
    ensures k <= |s| && Sub(s)[..k] == s[..k]
    decreases |s|
  {
    if k > 0 {
      assert Sub(s)[0] != '[';
      MatchedStart(s);
      assert Sub(s)[1..] == Sub(s[1..]);
      assert forall i | 0 <= i < k - 1 :: Sub(s[1..])[i] == Sub(s)[i + 1];
      CopiedPrefix(s[1..], k - 1);
      assert Sub(s)[..k] == [s[0]] + Sub(s[1..])[..k - 1];
      assert s[..k] == [s[0]] + s[1..][..k - 1];
    }
  }

  lemma MatchDependsOnPrefix(s: string, t: string)
    requires Match(s) > 0 && Match(s) <= |t| && t[..Match(s)] == s[..Match(s)]
    ensures Match(t) == Match(s)
  {
    var n := Match(s);
    assert forall i | 0 <= i < n :: t[i] == s[i] by {
      assert forall i | 0 <= i < n :: t[i] == t[..n][i] && s[i] == s[..n][i];
    }
    assert t[..5] == s[..5];
    var a, b := s[5..], t[5..];
    assert forall i | 0 <= i < n - 5 :: a[i] == s[i + 5] && b[i] == t[i + 5];
    assert ClassRun(a) == n - 6;
    assert b[n - 6] == '>';
    assert forall i | 0 <= i < n - 6 :: InClass(b[i]);
    assert ClassRun(b) == n - 6;
  }

  /** No new token can form across a replacement. */
  lemma {:induction false} SubIsClean(s: string)
    ensures !Found(Sub(s))
    decreases |s|
  {
    if s != [] {
      var n := Match(s);
      if n > 0 {
        SubIsClean(s[n..]);
        SubSkips(REPLACEMENT, Sub(s[n..]));
      } else {
        SubIsClean(s[1..]);
        assert Sub(s)[1..] == Sub(s[1..]);
        if Match(Sub(s)) > 0 {
          CopiedPrefix(s, Match(Sub(s)));
          MatchDependsOnPrefix(Sub(s), s);
        }
      }
    }
  }

  function Angles(s: string): nat { if s == [] then 0 else (if s[0] == '<' then 1 else 0) + Angles(s[1..]) }

  lemma {:induction false} AnglesAppend(a: string, b: string)
    ensures Angles(a + b) == Angles(a) + Angles(b)
  {
    if a == [] {
      assert a + b == b;
    } else {
      assert (a + b)[1..] == a[1..] + b;
      AnglesAppend(a[1..], b);
    }
  }

  lemma {:induction false} NoAngles(s: string)
    requires '<' !in s
    ensures Angles(s) == 0
  {
    if s != [] {
      NoAngles(s[1..]);
    }
  }

  lemma MatchHasAngle(s: string, n: nat)
    requires 0 < n <= |s| && s[0] == '<'
    ensures Angles(s) > Angles(s[n..])
  {
    AnglesAppend(s[..n], s[n..]);
    assert s == s[..n] + s[n..];
  }

  /** Each replacement removes an angle bracket and adds none. */
  lemma {:induction false} SubLosesAngles(s: string)
    ensures Angles(Sub(s)) <= Angles(s) && (Found(s) ==> Angles(Sub(s)) < Angles(s))
    decreases |s|
  {
    if s != [] {
      var n := Match(s);
      if n > 0 {
        SubLosesAngles(s[n..]);
        MatchHasAngle(s, n);
        NoAngles(REPLACEMENT);
        AnglesAppend(REPLACEMENT, Sub(s[n..]));
      } else {
        SubLosesAngles(s[1..]);
        assert Sub(s)[1..] == Sub(s[1..]);
      }
    }
  }

  /** The sanitised message holds no token, sanitising again changes nothing,
      and the flag says exactly whether the message was left alone. */
  lemma SanitiseIsExact(message: string)
    ensures var (clean, safe) := Sanitise(message);
            && !HasToken(clean)
            && Sanitise(clean) == (clean, true)
            && (safe <==> clean == message)
            && (safe <==> !HasToken(message))
  {
    FoundIsHasToken(message);
    SubIsClean(message);
    FoundIsHasToken(Sanitise(message).0);
    SubLosesAngles(message);
  }

  // ---------- the masker's own tokens ----------

  /** No match reaches past an opening bracket. */
  lemma MatchStops(s: string, x: string)
    requires s != [] && x != [] && x[0] == '['
    ensures Match(s + x) == Match(s)
  {
    var w := s + x;
    assert w[|s|] == '[';
    if Match(w) > 0 {
      var n := Match(w);
      assert n <= |s|;
      MatchDependsOnPrefix(w, s) by { assert s[..n] == w[..n]; }
    } else if Match(s) > 0 {
      MatchDependsOnPrefix(s, w) by { assert w[..Match(s)] == s[..Match(s)]; }
    }
  }

  /** Text up to an opening bracket is sanitised by itself. */
  lemma {:induction false} SubSplits(s: string, x: string)
    requires x != [] && x[0] == '['
    ensures Sub(s + x) == Sub(s) + Sub(x)
    ensures Found(s + x) <==> Found(s) || Found(x)
    decreases |s|
  {
    hide Match;
    if s == [] {
      assert s + x == x;
    } else {
      MatchStops(s, x);
      DropJoin(s, x, 1);
      SubSplits(s[1..], x);
      if Match(s) > 0 {
        DropJoin(s, x, Match(s));
        SubSplits(s[Match(s)..], x);
        Regroup(REPLACEMENT, Sub(s[Match(s)..]), Sub(x));
      } else {
        Regroup([s[0]], Sub(s[1..]), Sub(x));
      }
    }
  }

  lemma DropJoin(s: string, x: string, n: nat)
    requires n <= |s|
    ensures (s + x)[n..] == s[n..] + x
  {
  }

  lemma Regroup(a: string, b: string, c: string)
    ensures (a + b) + c == a + (b + c)
  {
  }

  /** Text without an angle bracket is passed over. */
  lemma {:induction false} SubSkips(w: string, rest: string)
    requires '<' !in w
    ensures Sub(w + rest) == w + Sub(rest)
    ensures Found(w + rest) <==> Found(rest)
  {
    if w == [] {
      assert w + rest == rest;
    } else {
      assert (w + rest)[1..] == w[1..] + rest && (w + rest)[0] == w[0];
      SubSkips(w[1..], rest);
    }
  }

  /** The masker's own tokens are not what the sanitiser looks for: in whatever
      text they stand, the text around them is sanitised as if they were not
      there, and they are neither replaced nor reported. */
  lemma MaskerTokensPass(prefix: string, n: nat, before: string, rest: string)
    requires IsLabel(prefix) && '<' !in prefix
    ensures Sub(before + (Token(prefix, n) + rest)) == Sub(before) + (Token(prefix, n) + Sub(rest))
    ensures Found(before + (Token(prefix, n) + rest)) <==> Found(before) || Found(rest)
    ensures Sanitise(before + (Token(prefix, n) + rest)).1 <==> Sanitise(before).1 && Sanitise(rest).1
  {
    var t := Token(prefix, n);
    assert '<' !in t by {
      assert forall i | 0 <= i < |Digits(n)| :: Digits(n)[i] != '<';
    }
    assert (t + rest)[0] == '[';
    SubSplits(before, t + rest);
    SubSkips(t, rest);
  }
}
