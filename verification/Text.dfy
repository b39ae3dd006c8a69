/** Python string operations the models share, and the `[PREFIX_n]` tokens. */
module Text {

  predicate StartsWith(s: string, t: string): (b: bool)
    ensures b ==> |t| <= |s| && forall i | 0 <= i < |t| :: s[i] == t[i]
  {
    |t| <= |s| && s[..|t|] == t
  }

  /** `t in s`. */
  predicate Occurs(s: string, t: string) {
    StartsWith(s, t) || (s != [] && Occurs(s[1..], t))
  }

  /** `s.lower()` of the letters A to Z. */
  function Lower(s: string): string {
    if s == [] then [] else [if 'A' <= s[0] <= 'Z' then (s[0] as int + 32) as char else s[0]] + Lower(s[1..])
  }

  /** `s.replace(t, v)`: one left-to-right pass over non-overlapping matches. */
  function Replace(s: string, t: string, v: string): string
    requires |t| > 0
  {
    if s == [] then []
    else if StartsWith(s, t) then v + Replace(s[|t|..], t, v)
    else [s[0]] + Replace(s[1..], t, v)
  }

  /** Python slices clamp their bounds to the length of the string. */
  function Before(s: string, n: nat): string { if n <= |s| then s[..n] else s }

  function From(s: string, n: nat): string { if n <= |s| then s[n..] else [] }

  function Digits(n: nat): (s: string)
    ensures |s| == 1 <==> n < 10
    ensures s != [] && forall i | 0 <= i < |s| :: '0' <= s[i] <= '9'
  {
    if n < 10 then ['0' + n as char] else Digits(n / 10) + ['0' + (n % 10) as char]
  }

  /** The number a row of decimal digits stands for. */
  function Decimal(s: string): int {
    if s == [] then 0 else 10 * Decimal(s[..|s| - 1]) + (s[|s| - 1] as int - '0' as int)
  }

  lemma {:induction false} DigitsRead(n: nat)
    ensures Decimal(Digits(n)) == n
  {
    var s := Digits(n);
    if n >= 10 {
      DigitsRead(n / 10);
      assert s[..|s| - 1] == Digits(n / 10);
    } else {
      assert Decimal(s[..0]) == 0;
    }
  }

  lemma DigitsInjective(m: nat, n: nat)
    requires Digits(m) == Digits(n)
    ensures m == n
  {
    DigitsRead(m);
    DigitsRead(n);
  }

  /** A label such as PHONE: no brackets and no underscore. */
  predicate IsLabel(p: string) { '[' !in p && ']' !in p && '_' !in p }

  function Token(prefix: string, n: nat): string { "[" + prefix + "_" + Digits(n) + "]" }

  /** Opens with '[', closes with ']', and has no bracket in between. */
  ghost predicate Bracketed(t: string) {
    && |t| >= 2 && t[0] == '[' && t[|t| - 1] == ']'
    && forall i | 0 < i < |t| - 1 :: t[i] != '[' && t[i] != ']'
  }

  lemma TokenBracketed(prefix: string, n: nat)
    requires IsLabel(prefix)
    ensures Bracketed(Token(prefix, n))
  {
    var t, d := Token(prefix, n), Digits(n);
    forall i | 0 < i < |t| - 1 ensures t[i] != '[' && t[i] != ']' {
      if i <= |prefix| {
        assert t[i] == prefix[i - 1];
      } else if i > |prefix| + 1 {
        assert t[i] == d[i - |prefix| - 2];
      }
    }
  }

  /** Distinct (prefix, index) pairs never share a token. */
  lemma TokenInjective(p: string, m: nat, q: string, n: nat)
    requires IsLabel(p) && IsLabel(q) && Token(p, m) == Token(q, n)
    ensures p == q && m == n
  {
    var t := Token(p, m);
    assert t[|p| + 1] == '_' && t[|q| + 1] == '_';
    assert t[1..|p| + 1] == p && t[1..|q| + 1] == q;
    assert forall i | 0 <= i < |p| :: t[i + 1] == p[i] && p[i] != '_';
    assert forall i | 0 <= i < |q| :: t[i + 1] == q[i] && q[i] != '_';
    assert |p| == |q|;
    assert Digits(m) == t[|p| + 2..|t| - 1] == Digits(n);
    DigitsInjective(m, n);
  }

  lemma BracketedPrefix(u: string, rest: string, t: string)
    requires Bracketed(u) && Bracketed(t) && StartsWith(u + rest, t)
    ensures u == t
  {
    var w := u + rest;
    assert forall i | 0 <= i < |u| :: w[i] == u[i];
    assert forall i | 0 <= i < |t| :: w[i] == t[i];
    assert w[|u| - 1] == ']' && w[|t| - 1] == ']';
    assert |u| == |t|;
  }

  lemma {:induction false} OccursInSuffix(a: string, b: string, t: string)
    requires Occurs(b, t)
    ensures Occurs(a + b, t)
  {
    if a == [] {
      assert a + b == b;
    } else {
      OccursInSuffix(a[1..], b, t);
      assert (a + b)[1..] == a[1..] + b;
    }
  }

  lemma {:induction false} ReplaceAbsent(s: string, t: string, v: string)
    requires t != [] && !Occurs(s, t)
    ensures Replace(s, t, v) == s
  {
    if s != [] {
      ReplaceAbsent(s[1..], t, v);
    }
  }

  /** A pass for a token runs through text that has no '[' unchanged. */
  lemma {:induction false} ReplaceSkips(a: string, rest: string, t: string, v: string)
    requires Bracketed(t) && '[' !in a
    ensures Replace(a + rest, t, v) == a + Replace(rest, t, v)
  {
    if a == [] {
      assert a + rest == rest;
    } else {
      assert (a + rest)[1..] == a[1..] + rest;
      assert (a + rest)[0] == a[0];
      assert !StartsWith(a + rest, t);
      ReplaceSkips(a[1..], rest, t, v);
    }
  }

  /** A pass for one token leaves a leading different token in place. */
  lemma ReplaceSkipsToken(u: string, rest: string, t: string, v: string)
    requires Bracketed(u) && Bracketed(t) && u != t
    ensures Replace(u + rest, t, v) == u + Replace(rest, t, v)
  {
    if StartsWith(u + rest, t) {
      BracketedPrefix(u, rest, t);
    }
    assert (u + rest)[1..] == u[1..] + rest;
    assert '[' !in u[1..] by {
      forall i | 0 <= i < |u| - 1 ensures u[1..][i] != '[' {
        assert u[1..][i] == u[i + 1];
      }
    }
    ReplaceSkips(u[1..], rest, t, v);
  }

  lemma ReplaceLeading(t: string, rest: string, v: string)
    requires |t| > 0
    ensures Replace(t + rest, t, v) == v + Replace(rest, t, v)
  {
    assert (t + rest)[..|t|] == t && (t + rest)[|t|..] == rest;
  }

  lemma {:induction false} NoBracketNoToken(s: string, t: string)
    requires '[' !in s && Bracketed(t)
    ensures !Occurs(s, t)
  {
    if s != [] {
      NoBracketNoToken(s[1..], t);
    }
  }
}
