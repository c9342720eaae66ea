/** String primitives the service relies on, written out with Python's meaning:
    whitespace as `str.isspace` / the `\s` class of `re`, letters as `str.isalpha`,
    `str.strip()`, `str.replace` of one character, `str(int)` and line splitting.

    Letters, digits and word characters are those of Python for code points up to
    U+00FF; whitespace is Python's complete list. */
module Text {

  /** `str.isspace()` for one character, and the `\s` class of a `re` str pattern. */
  predicate IsSpace(c: char) {
    || ('\t' <= c <= '\r')
    || ('\U{1C}' <= c <= ' ')
    || c == '\U{85}' || c == '\U{A0}' || c == '\U{1680}'
    || ('\U{2000}' <= c <= '\U{200A}')
    || c == '\U{2028}' || c == '\U{2029}' || c == '\U{202F}' || c == '\U{205F}'
    || c == '\U{3000}'
  }

  /** `str.isalpha()` for one character, for code points up to U+00FF. */
  predicate IsLetter(c: char) {
    || ('A' <= c <= 'Z') || ('a' <= c <= 'z')
    || c == '\U{AA}' || c == '\U{B5}' || c == '\U{BA}'
    || ('\U{C0}' <= c <= '\U{D6}') || ('\U{D8}' <= c <= '\U{F6}') || ('\U{F8}' <= c <= '\U{FF}')
  }

  /** The `\d` class of a `re` str pattern, for code points up to U+00FF. */
  predicate IsDigit(c: char) {
    '0' <= c <= '9'
  }

  /** The `\w` class of a `re` str pattern (alphanumeric or underscore), for code points up to U+00FF. */
  predicate IsWordChar(c: char) {
    || IsLetter(c) || IsDigit(c) || c == '_'
    || c == '\U{B2}' || c == '\U{B3}' || c == '\U{B9}'
    || ('\U{BC}' <= c <= '\U{BE}')
  }

  predicate AllSpace(s: string) {
    forall k :: 0 <= k < |s| ==> IsSpace(s[k])
  }

  /** Drops the leading whitespace. */
  function TrimStart(s: string): (r: string)
    ensures |r| <= |s| && r == s[|s| - |r|..]
    ensures AllSpace(s[..|s| - |r|])
    ensures r == [] || !IsSpace(r[0])
    decreases |s|
  {
    if s != [] && IsSpace(s[0]) then TrimStart(s[1..]) else s
  }

  /** Drops the trailing whitespace. */
  function TrimEnd(s: string): (r: string)
    ensures |r| <= |s| && r == s[..|r|]
    ensures AllSpace(s[|r|..])
    ensures r == [] || !IsSpace(r[|r| - 1])
    decreases |s|
  {
    if s != [] && IsSpace(s[|s| - 1]) then
      var r := TrimEnd(s[..|s| - 1]);
      assert s[|r|..] == s[..|s| - 1][|r|..] + [s[|s| - 1]];
      r
    else s
  }

  /** `str.strip()` with no argument. */
  function Strip(s: string): (r: string)
    ensures |r| <= |s|
    ensures r == [] || (!IsSpace(r[0]) && !IsSpace(r[|r| - 1]))
  {
    var t := TrimStart(s);
    var r := TrimEnd(t);
    assert r != [] ==> r[0] == t[0];
    r
  }

  /** `r` is `s` with the whitespace-only prefix `s[..a]` and a whitespace-only suffix cut off. */
  predicate StrippedAt(s: string, r: string, a: int) {
    && 0 <= a <= a + |r| <= |s| && r == s[a..a + |r|]
    && AllSpace(s[..a]) && AllSpace(s[a + |r|..])
  }

  /** What `strip()` keeps is an infix of the input, and everything it cuts off on
      either side is whitespace. */
  lemma StripSpec(s: string)
    ensures exists a :: StrippedAt(s, Strip(s), a)
  {
    var t := TrimStart(s);
    var r := TrimEnd(t);
    assert r == Strip(s);
    StripCut(s, t, r, |s| - |t|);
  }

  lemma StripCut(s: string, t: string, r: string, a: int)
    requires |t| <= |s| && t == s[|s| - |t|..] && AllSpace(s[..|s| - |t|])
    requires |r| <= |t| && r == t[..|r|] && AllSpace(t[|r|..])
    requires a == |s| - |t|
    ensures StrippedAt(s, r, a)
  {
    assert s[a + |r|..] == t[|r|..];
  }

  /** Stripping twice removes nothing more. */
  lemma StripIdempotent(s: string)
    ensures Strip(Strip(s)) == Strip(s)
  {
    var r := Strip(s);
    assert TrimStart(r) == r;
  }

  /** `s.replace(target, repl)` for a one-character `target`. */
  function ReplaceChar(s: string, target: char, repl: string): string
  {
    if s == [] then [] else (if s[0] == target then repl else [s[0]]) + ReplaceChar(s[1..], target, repl)
  }

  /** Replacing a character by one character keeps the length and every other character,
      and leaves no occurrence of the replaced character unless it is the replacement. */
  lemma {:induction false} ReplaceCharByOne(s: string, target: char, repl: char)
    ensures |ReplaceChar(s, target, [repl])| == |s|
    ensures forall k :: 0 <= k < |s| ==>
      ReplaceChar(s, target, [repl])[k] == if s[k] == target then repl else s[k]
  {
    if s != [] {
      ReplaceCharByOne(s[1..], target, repl);
      var r := ReplaceChar(s, target, [repl]);
      assert r == [if s[0] == target then repl else s[0]] + ReplaceChar(s[1..], target, [repl]);
      forall k | 0 < k < |s|
        ensures r[k] == if s[k] == target then repl else s[k]
      {
        assert r[k] == ReplaceChar(s[1..], target, [repl])[k - 1];
        assert s[1..][k - 1] == s[k];
      }
    }
  }

  /** `replace` works character by character: replacing in a concatenation is
      replacing in each part, so the untouched characters keep their order. */
  lemma {:induction false} ReplaceCharConcat(a: string, b: string, target: char, repl: string)
    ensures ReplaceChar(a + b, target, repl) == ReplaceChar(a, target, repl) + ReplaceChar(b, target, repl)
  {
    if a != [] {
      var head := if a[0] == target then repl else [a[0]];
      assert (a + b)[0] == a[0] && (a + b)[1..] == a[1..] + b;
      assert ReplaceChar(a + b, target, repl) == head + ReplaceChar(a[1..] + b, target, repl);
      ReplaceCharConcat(a[1..], b, target, repl);
      assert head + (ReplaceChar(a[1..], target, repl) + ReplaceChar(b, target, repl))
          == (head + ReplaceChar(a[1..], target, repl)) + ReplaceChar(b, target, repl);
    } else {
      assert a + b == b;
    }
  }

  /** Deleting a character keeps every other character as often as it occurred and
      removes every occurrence of the deleted one; with `ReplaceCharConcat`, the
      result is the input with the deleted character dropped, in order. */
  lemma {:induction false} DeleteChar(s: string, target: char)
    ensures forall c :: c in ReplaceChar(s, target, []) <==> c in s && c != target
    ensures forall c :: c != target ==> multiset(ReplaceChar(s, target, []))[c] == multiset(s)[c]
    ensures multiset(ReplaceChar(s, target, []))[target] == 0
    ensures |ReplaceChar(s, target, [])| <= |s|
  {
    if s != [] {
      DeleteChar(s[1..], target);
      assert s == [s[0]] + s[1..];
      assert multiset(s) == multiset{s[0]} + multiset(s[1..]);
    }
  }

  /** The decimal character of a digit value. */
  function DigitChar(d: int): (c: char)
    requires 0 <= d < 10
    ensures IsDigit(c)
  {
    (48 + d) as char
  }

  /** `str(n)` for a non-negative integer. */
  function NatToDecimal(n: nat): (r: string)
    ensures |r| > 0 && forall k :: 0 <= k < |r| ==> IsDigit(r[k])
  {
    if n < 10 then [DigitChar(n)] else NatToDecimal(n / 10) + [DigitChar(n % 10)]
  }

  /** `str(i)` for an integer. */
  function IntToDecimal(i: int): string
  {
    if i < 0 then "-" + NatToDecimal(-i) else NatToDecimal(i)
  }

  /** Position of the first line feed of `s`, or `|s|` when there is none. */
  function LineEnd(s: string): (k: nat)
    ensures k <= |s| && '\n' !in s[..k] && (k < |s| ==> s[k] == '\n')
  {
    if s == [] || s[0] == '\n' then 0 else 1 + LineEnd(s[1..])
  }

  /** The lines of a text, each without its terminating line feed (`str.splitlines`
      restricted to `\n`; a final line without terminator counts as a line). */
  function Lines(s: string): seq<string>
    decreases |s|
  {
    if s == [] then []
    else
      var k := LineEnd(s);
      if k < |s| then [s[..k]] + Lines(s[k + 1..]) else [s]
  }

  /** A line without line feed, followed by one and nothing else, is the whole text. */
  lemma LinesLast(line: string)
    requires '\n' !in line
    ensures Lines(line + "\n") == [line]
  {
    LinesCons(line, "");
    assert line + "\n" + "" == line + "\n";
  }

  /** Two, three and four lines, each ended by a line feed, split back into themselves. */
  lemma TwoLines(l1: string, l2: string)
    requires '\n' !in l1 && '\n' !in l2
    ensures Lines(l1 + "\n" + (l2 + "\n")) == [l1, l2]
  {
    LinesLast(l2);
    LinesCons(l1, l2 + "\n");
  }

  lemma ThreeLines(l1: string, l2: string, l3: string)
    requires '\n' !in l1 && '\n' !in l2 && '\n' !in l3
    ensures Lines(l1 + "\n" + (l2 + "\n" + (l3 + "\n"))) == [l1, l2, l3]
  {
    TwoLines(l2, l3);
    LinesCons(l1, l2 + "\n" + (l3 + "\n"));
  }

  lemma FourLines(l1: string, l2: string, l3: string, l4: string)
    requires '\n' !in l1 && '\n' !in l2 && '\n' !in l3 && '\n' !in l4
    ensures Lines(l1 + "\n" + (l2 + "\n" + (l3 + "\n" + (l4 + "\n")))) == [l1, l2, l3, l4]
  {
    ThreeLines(l2, l3, l4);
    LinesCons(l1, l2 + "\n" + (l3 + "\n" + (l4 + "\n")));
  }

  /** A line without line feed, followed by one, is the first line of the text. */
  lemma LinesCons(line: string, rest: string)
    requires '\n' !in line
    ensures Lines(line + "\n" + rest) == [line] + Lines(rest)
  {
    var s := line + "\n" + rest;
    LineEndAt(line, rest);
    assert s[..|line|] == line;
    assert s[|line| + 1..] == rest;
  }

  lemma {:induction false} LineEndAt(line: string, rest: string)
    requires '\n' !in line
    ensures LineEnd(line + "\n" + rest) == |line|
  {
    if line != [] {
      assert (line + "\n" + rest)[1..] == line[1..] + "\n" + rest;
      LineEndAt(line[1..], rest);
    }
  }
}
