/** The browser's line buffer over a stream read in arbitrary pieces. */
module EventStream {

  /** `s.split('\n')`: never empty, the last item is what follows the last newline. */
  function Split(s: string): (lines: seq<string>)
    ensures |lines| > 0
  {
    if s == [] then [[]]
    else
      var rest := Split(s[1..]);
      if s[0] == '\n' then [[]] + rest else [[s[0]] + rest[0]] + rest[1..]
  }

  function Lines(s: string): seq<string> { Split(s)[..|Split(s)| - 1] }

  function Partial(s: string): string { Split(s)[|Split(s)| - 1] }

  /** Lines joined with a newline after each but the last. */
  function Rejoined(lines: seq<string>): string
    requires lines != []
  {
    if |lines| == 1 then lines[0] else lines[0] + ['\n'] + Rejoined(lines[1..])
  }

  /** The only lines without newlines that join to the text. */
  lemma {:induction false} SplitExactly(s: string, lines: seq<string>)
    requires lines != []
    ensures lines == Split(s) <==> Rejoined(lines) == s && forall x | x in lines :: '\n' !in x
    decreases |s|
  {
    if s != [] {
      var rest := Split(s[1..]);
      SplitExactly(s[1..], rest);
      assert s == [s[0]] + s[1..];
      if s[0] == '\n' {
        assert ([[]] + rest)[1..] == rest;
      } else {
        assert ([[s[0]] + rest[0]] + rest[1..])[1..] == rest[1..];
      }
    }
    if Rejoined(lines) == s && forall x | x in lines :: '\n' !in x { SplitUnique(s, lines); }
  }

  /** Dropping the first letter of the first line drops it from the text. */
  lemma Headless(first: string, later: seq<string>)
    requires first != []
    ensures Rejoined([first] + later) == [first[0]] + Rejoined([first[1..]] + later)
    ensures [first[0]] + first[1..] == first
  {
    var all, shorter := [first] + later, [first[1..]] + later;
    if later != [] {
      assert all[1..] == later && shorter[1..] == later;
      assert first + ['\n'] + Rejoined(later) == [first[0]] + (first[1..] + ['\n'] + Rejoined(later));
    }
  }

  lemma {:induction false} SplitUnique(s: string, lines: seq<string>)
    requires lines != [] && Rejoined(lines) == s && forall x | x in lines :: '\n' !in x
    ensures lines == Split(s)
    decreases |s|
  {
    var first, later := lines[0], lines[1..];
    assert first in lines;
    if s == [] {
      assert |lines| == 1;
      assert lines == [first] == [[]];
    } else if first == [] {
      assert s == ['\n'] + Rejoined(later);
      assert s[1..] == Rejoined(later);
      SplitUnique(s[1..], later);
      assert lines == [[]] + later;
    } else {
      var shorter := [first[1..]] + later;
      assert shorter[1..] == later;
      Headless(first, later);
      SplitUnique(s[1..], shorter);
      assert lines == [first] + later && s == [first[0]] + Rejoined(shorter);
    }
  }

  function Flatten(chunks: seq<string>): string {
    if chunks == [] then [] else chunks[0] + Flatten(chunks[1..])
  }

  /** Lines up to and including the first that ends the stream. */
  function Until(lines: seq<string>, ends: string -> bool): seq<string> {
    if lines == [] then []
    else if ends(lines[0]) then [lines[0]]
    else [lines[0]] + Until(lines[1..], ends)
  }

  lemma {:induction false} SplitAfter(a: string, b: string)
    ensures Split(a + b) == Lines(a) + Split(Partial(a) + b)
  {
    hide Lines, Partial;
    if a == [] {
      assert a + b == b;
      NoNewline(a);
      assert [] + Split(b) == Split(b);
    } else {
      assert (a + b)[0] == a[0] && (a + b)[1..] == a[1..] + b;
      assert a == [a[0]] + a[1..];
      SplitAfter(a[1..], b);
      if a[0] == '\n' {
        NewlineFirst(a[1..], Split(Partial(a[1..]) + b));
      } else if |Split(a[1..])| == 1 {
        NoNewline(a[1..]);
        NoNewline(a);
        assert [] + Split(a + b) == Split(a + b);
      } else {
        LetterFirst(a[0], a[1..], Split(Partial(a[1..]) + b));
      }
    }
  }

  lemma NewlineFirst(rest: string, x: seq<string>)
    ensures var a := ['\n'] + rest;
            Partial(a) == Partial(rest) && [[]] + (Lines(rest) + x) == Lines(a) + x
  {
    var a := ['\n'] + rest;
    assert a[1..] == rest;
    assert Split(a) == [[]] + Split(rest);
    assert Lines(a) == [[]] + Lines(rest);
  }

  lemma LetterFirst(c: char, rest: string, x: seq<string>)
    requires c != '\n' && |Split(rest)| > 1
    ensures var a := [c] + rest;
            && Partial(a) == Partial(rest)
            && [[c] + (Lines(rest) + x)[0]] + (Lines(rest) + x)[1..] == Lines(a) + x
  {
    var a, r := [c] + rest, Split(rest);
    assert a[1..] == rest;
    assert Split(a) == [[c] + r[0]] + r[1..];
    ReplaceHead([c] + r[0], r, x);
  }

  lemma ReplaceHead<T>(h: T, r: seq<T>, x: seq<T>)
    requires |r| > 1
    ensures [h] + (r[..|r| - 1] + x)[1..] == ([h] + r[1..])[..|r| - 1] + x
    ensures (r[..|r| - 1] + x)[0] == r[0] && ([h] + r[1..])[|r| - 1] == r[|r| - 1]
  {
  }

  lemma SplitAppend(a: string, b: string)
    ensures Lines(a + b) == Lines(a) + Lines(Partial(a) + b)
    ensures Partial(a + b) == Partial(Partial(a) + b)
  {
    SplitAfter(a, b);
  }

  lemma {:induction false} NoNewline(s: string)
    requires |Split(s)| == 1
    ensures Split(s) == [s] && Lines(s) == [] && Partial(s) == s
  {
    if s != [] {
      assert |Split(s[1..])| == 1;
      NoNewline(s[1..]);
      assert [s[0]] + s[1..] == s;
    }
  }

  /** The draft stream's loop: every complete line handled, in order. */
  method ReadDraftStream(chunks: seq<string>) returns (handled: seq<string>, buffer: string)
    ensures handled == Lines(Flatten(chunks)) && buffer == Partial(Flatten(chunks))
  {
    handled, buffer := [], "";
    ghost var read := "";
    for i := 0 to |chunks|
      invariant read + Flatten(chunks[i..]) == Flatten(chunks)
      invariant handled == Lines(read) && buffer == Partial(read)
    {
      SplitAppend(read, chunks[i]);
      buffer := buffer + chunks[i];
      var lines := Split(buffer);
      buffer := lines[|lines| - 1];
      handled := handled + lines[..|lines| - 1];
      MoveChunk(read, chunks, i);
      read := read + chunks[i];
    }
    assert read + [] == read;
  }

  lemma {:induction false} UntilAppend(a: seq<string>, b: seq<string>, ends: string -> bool)
    ensures (exists x | x in a :: ends(x)) ==> Until(a + b, ends) == Until(a, ends)
    ensures (forall x | x in a :: !ends(x)) ==> Until(a, ends) == a && Until(a + b, ends) == a + Until(b, ends)
  {
    if a == [] {
      assert a + b == b;
    } else {
      assert (a + b)[1..] == a[1..] + b;
      UntilAppend(a[1..], b, ends);
      assert a == [a[0]] + a[1..];
    }
  }

  /** The inner loop: handle lines until one ends the stream. */
  method HandleLines(lines: seq<string>, ends: string -> bool) returns (handled: seq<string>, isDone: bool)
    ensures handled == Until(lines, ends)
    ensures isDone <==> exists x | x in lines :: ends(x)
  {
    handled, isDone := [], false;
    for i := 0 to |lines|
      invariant handled + Until(lines[i..], ends) == Until(lines, ends)
      invariant forall x | x in lines[..i] :: !ends(x)
    {
      ghost var rest := Until(lines[i + 1..], ends);
      assert lines[i..][1..] == lines[i + 1..];
      assert handled + ([lines[i]] + rest) == (handled + [lines[i]]) + rest;
      handled := handled + [lines[i]];
      if ends(lines[i]) {
        return handled, true;
      }
    }
  }

  /** The chat stream's loop: it also stops at the first closing event, and the
      lines it handles do not depend on how the stream was cut into reads. */
  method ReadChatStream(chunks: seq<string>, ends: string -> bool) returns (handled: seq<string>)
    ensures handled == Until(Lines(Flatten(chunks)), ends)
  {
    handled := [];
    var buffer, isDone, i := "", false, 0;
    ghost var read := "";
    assert Lines("") == [] && Partial("") == "";
    hide Split, Lines, Partial, Until;
    UntilNone(ends);
    while i < |chunks| && !isDone
      invariant i <= |chunks| && read + Flatten(chunks[i..]) == Flatten(chunks)
      invariant buffer == Partial(read) && handled == Until(Lines(read), ends)
      invariant isDone <==> exists x | x in Lines(read) :: ends(x)
    {
      SplitAppend(read, chunks[i]);
      UntilAppend(Lines(read), Lines(buffer + chunks[i]), ends);
      var lines := SplitBuffer(buffer + chunks[i]);
      buffer := lines[|lines| - 1];
      var more;
      more, isDone := HandleLines(lines[..|lines| - 1], ends);
      handled := handled + more;
      MoveChunk(read, chunks, i);
      read := read + chunks[i];
      i := i + 1;
    }
    if isDone {
      UntilPrefix(read, Flatten(chunks[i..]), ends);
    }
    assert i == |chunks| ==> chunks[i..] == [] && read + [] == read;
  }

  method SplitBuffer(buffer: string) returns (lines: seq<string>)
    ensures |lines| > 0 && lines[..|lines| - 1] == Lines(buffer) && lines[|lines| - 1] == Partial(buffer)
  {
    lines := Split(buffer);
  }

  lemma UntilNone(ends: string -> bool)
    ensures Until([], ends) == []
  {
  }

  lemma MoveChunk(read: string, chunks: seq<string>, i: nat)
    requires i < |chunks|
    ensures read + Flatten(chunks[i..]) == (read + chunks[i]) + Flatten(chunks[i + 1..])
  {
    assert chunks[i..][1..] == chunks[i + 1..];
    assert read + (chunks[i] + Flatten(chunks[i + 1..])) == (read + chunks[i]) + Flatten(chunks[i + 1..]);
  }

  lemma UntilPrefix(read: string, rest: string, ends: string -> bool)
    requires exists x | x in Lines(read) :: ends(x)
    ensures Until(Lines(read + rest), ends) == Until(Lines(read), ends)
  {
    SplitAppend(read, rest);
    UntilAppend(Lines(read), Lines(Partial(read) + rest), ends);
  }
}
