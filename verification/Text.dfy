/** Decimal numerals, whitespace, lines and words, as Rust's standard library reads and prints them. */
module Text {
  import opened Wrappers
  import opened Manifests

  // ----- Decimal numerals

  predicate IsDigit(c: char) {
    '0' <= c <= '9'
  }

  predicate AllDigits(s: string) {
    forall i :: 0 <= i < |s| ==> IsDigit(s[i])
  }

  function Digit(d: nat): (c: char)
    requires d < 10
    ensures IsDigit(c) && c as int - '0' as int == d
  {
    ('0' as int + d) as char
  }

  /** A number as `to_string` prints it: no sign, no leading zero. */
  function Decimal(n: nat): (s: string)
    ensures s != [] && AllDigits(s)
  {
    if n < 10 then [Digit(n)] else Decimal(n / 10) + [Digit(n % 10)]
  }

  function Numeral(s: string): nat
    requires AllDigits(s)
  {
    if s == [] then 0 else Numeral(s[..|s| - 1]) * 10 + (s[|s| - 1] as int - '0' as int)
  }

  lemma {:induction false} NumeralOfDecimal(n: nat)
    ensures Numeral(Decimal(n)) == n
  {
    if n >= 10 {
      NumeralOfDecimal(n / 10);
      assert Decimal(n)[..|Decimal(n)| - 1] == Decimal(n / 10);
    }
  }

  /** `str::parse::<u32>`: digits after an optional plus sign, below 2^32. */
  function ParseU32(s: string): Option<U32> {
    var digits := if s != [] && s[0] == '+' then s[1..] else s;
    if digits != [] && AllDigits(digits) && Numeral(digits) < 0x1_0000_0000
    then Some(Numeral(digits)) else None
  }

  lemma ParseOfDecimal(n: U32)
    ensures ParseU32(Decimal(n)) == Some(n)
  {
    NumeralOfDecimal(n);
  }

  /** Any digits count, leading zeros too, with a plus sign or without; everything else is refused. */
  lemma ParseMeans(s: string)
    ensures s != [] && AllDigits(s) ==>
      ParseU32(s) == ParseU32("+" + s) == if Numeral(s) < 4294967296 then Some(Numeral(s)) else None
    ensures ParseU32(s).Some? ==> s != [] && (AllDigits(s) || (s[0] == '+' && |s| > 1 && AllDigits(s[1..])))
  {
    assert ("+" + s)[1..] == s && !IsDigit('+');
    assert s != [] && AllDigits(s) ==> IsDigit(s[0]);
  }

  /** A run of characters from one class, followed by something outside it, splits in one way only. */
  lemma SpanUnique(inClass: char -> bool, a: string, x: string, b: string, y: string)
    requires a + x == b + y
    requires (forall c :: c in a ==> inClass(c)) && (x != [] ==> !inClass(x[0]))
    requires (forall c :: c in b ==> inClass(c)) && (y != [] ==> !inClass(y[0]))
    ensures a == b && x == y
  {
    var s := a + x;
    assert forall k :: 0 <= k < |a| ==> inClass(s[k]) by { assert forall k :: 0 <= k < |a| ==> s[k] == a[k]; }
    assert forall k :: 0 <= k < |b| ==> inClass(s[k]) by { assert forall k :: 0 <= k < |b| ==> s[k] == b[k]; }
    assert |a| < |s| ==> s[|a|] == x[0];
    assert |b| < |s| ==> s[|b|] == y[0];
    assert |a| == |b|;
    assert a == (a + x)[..|a|] == (b + y)[..|a|] == b;
    assert x == (a + x)[|a|..] == (b + y)[|a|..] == y;
  }

  // ----- The order of texts

  predicate TextBefore(a: string, b: string) {
    b != [] && (a == [] || a[0] < b[0] || (a[0] == b[0] && TextBefore(a[1..], b[1..])))
  }

  /** Texts of equal length compare field by field. */
  lemma {:induction false} TextBeforeAppend(a: string, x: string, b: string, y: string)
    requires |a| == |b|
    ensures TextBefore(a + x, b + y) <==> TextBefore(a, b) || (a == b && TextBefore(x, y))
  {
    if a == [] {
      assert a + x == x && b + y == y;
    } else {
      assert (a + x)[1..] == a[1..] + x && (b + y)[1..] == b[1..] + y;
      TextBeforeAppend(a[1..], x, b[1..], y);
      assert a == b <==> a[0] == b[0] && a[1..] == b[1..];
    }
  }

  // ----- Whitespace and words

  /** Unicode White_Space, which `char::is_whitespace` tests. */
  predicate IsSpace(c: char) {
    var n := c as int;
    9 <= n <= 13 || n == 0x20 || n == 0x85 || n == 0xA0 || n == 0x1680 || 0x2000 <= n <= 0x200A
    || n == 0x2028 || n == 0x2029 || n == 0x202F || n == 0x205F || n == 0x3000
  }

  /** White space, code point by code point. */
  lemma SpacesAre(c: char)
    ensures IsSpace(c) <==> c as int in {
      9, 10, 11, 12, 13, 32, 0x85, 0xA0, 0x1680, 0x2000, 0x2001, 0x2002, 0x2003, 0x2004, 0x2005, 0x2006, 0x2007,
      0x2008, 0x2009, 0x200A, 0x2028, 0x2029, 0x202F, 0x205F, 0x3000}
  {}

  /** `trim().is_empty()`. */
  predicate Blank(s: string) {
    forall i :: 0 <= i < |s| ==> IsSpace(s[i])
  }

  predicate SpaceFree(s: string) {
    forall i :: 0 <= i < |s| ==> !IsSpace(s[i])
  }

  predicate IsWord(s: string) {
    s != [] && SpaceFree(s)
  }

  /** The length of the leading run of non-space characters. */
  function WordEnd(s: string): (k: nat)
    ensures k <= |s| && SpaceFree(s[..k]) && (k < |s| ==> IsSpace(s[k]))
  {
    if s == [] || IsSpace(s[0]) then 0
    else
      var k := 1 + WordEnd(s[1..]);
      assert s[..k] == [s[0]] + s[1..][..k - 1];
      k
  }

  /** `split_whitespace`. */
  function Words(s: string): seq<string> {
    if s == [] then []
    else if IsSpace(s[0]) then Words(s[1..])
    else [s[..WordEnd(s)]] + Words(s[WordEnd(s)..])
  }

  lemma {:induction false} WordsAreWords(s: string)
    ensures forall w :: w in Words(s) ==> IsWord(w)
  {
    if s != [] {
      if IsSpace(s[0]) {
        WordsAreWords(s[1..]);
      } else {
        WordsAreWords(s[WordEnd(s)..]);
      }
    }
  }

  lemma {:induction false} BlankPrefix(a: string, b: string)
    requires Blank(a)
    ensures Words(a + b) == Words(b)
  {
    if a == [] {
      assert a + b == b;
    } else {
      assert (a + b)[1..] == a[1..] + b;
      BlankPrefix(a[1..], b);
    }
  }

  lemma FirstWord(w: string, rest: string)
    requires IsWord(w) && (rest != [] ==> IsSpace(rest[0]))
    ensures Words(w + rest) == [w] + Words(rest)
  {
    var s := w + rest;
    var k := WordEnd(s);
    SpanUnique(c => !IsSpace(c), s[..k], s[k..], w, rest);
  }

  /** The words joined by single spaces. */
  function Spaced(words: seq<string>): string {
    if words == [] then ""
    else if |words| == 1 then words[0]
    else words[0] + " " + Spaced(words[1..])
  }

  lemma {:induction false} WordsOfSpaced(words: seq<string>)
    requires forall w :: w in words ==> IsWord(w)
    ensures Words(Spaced(words)) == words
  {
    if |words| == 1 {
      FirstWord(words[0], "");
      assert words[0] + "" == words[0];
    } else if words != [] {
      var rest := Spaced(words[1..]);
      FirstWord(words[0], " " + rest);
      assert Spaced(words) == words[0] + (" " + rest);
      BlankPrefix(" ", rest);
      WordsOfSpaced(words[1..]);
    }
  }

  /** Gluing two texts together loses at most one word: the two that meet may become one. */
  lemma {:induction false} GluedWordCount(a: string, b: string)
    ensures |Words(a)| + |Words(b)| - 1 <= |Words(a + b)| <= |Words(a)| + |Words(b)|
  {
    if a == [] {
      assert a + b == b;
    } else if IsSpace(a[0]) {
      assert (a + b)[1..] == a[1..] + b;
      GluedWordCount(a[1..], b);
    } else {
      var k := WordEnd(a);
      var w, rest := a[..k], a[k..];
      assert a == w + rest && a + b == w + (rest + b);
      if rest != [] {
        FirstWord(w, rest + b);
        GluedWordCount(rest, b);
      } else {
        assert a + b == w + b;
        GluedFirstWord(w, b);
      }
    }
  }

  lemma GluedFirstWord(w: string, b: string)
    requires IsWord(w)
    ensures |Words(b)| <= |Words(w + b)| <= 1 + |Words(b)| && Words(w) == [w]
  {
    FirstWord(w, "");
    assert w + "" == w;
    var k := WordEnd(b);
    if k == 0 {
      FirstWord(w, b);
    } else {
      assert w + b == (w + b[..k]) + b[k..];
      FirstWord(w + b[..k], b[k..]);
      assert Words(b) == [b[..k]] + Words(b[k..]);
    }
  }

  // ----- Lines

  function LineEnd(s: string): (k: nat)
    ensures k <= |s| && '\n' !in s[..k] && (k < |s| ==> s[k] == '\n')
  {
    if s == [] || s[0] == '\n' then 0
    else
      var k := 1 + LineEnd(s[1..]);
      assert s[..k] == [s[0]] + s[1..][..k - 1];
      k
  }

  function DropCr(line: string): string {
    if line != [] && line[|line| - 1] == '\r' then line[..|line| - 1] else line
  }

  /** `str::lines`: split at newlines, which may be preceded by a carriage return. */
  function Lines(s: string): seq<string> {
    if s == [] then []
    else if LineEnd(s) == |s| then [s]
    else [DropCr(s[..LineEnd(s)])] + Lines(s[LineEnd(s) + 1..])
  }

  predicate EndsLine(s: string) {
    s == [] || s[|s| - 1] == '\n'
  }

  lemma FirstLine(line: string, rest: string)
    requires '\n' !in line
    ensures Lines(line + "\n" + rest) == [DropCr(line)] + Lines(rest)
  {
    var s := line + ("\n" + rest);
    assert s == line + "\n" + rest;
    var k := LineEnd(s);
    SpanUnique(c => c != '\n', s[..k], s[k..], line, "\n" + rest);
    assert s[k + 1..] == rest;
  }

  /** A carriage return before the newline belongs to the line's end. */
  lemma CarriageReturn(line: string, rest: string)
    requires '\n' !in line
    ensures Lines(line + "\r\n" + rest) == [line] + Lines(rest)
  {
    var s := line + "\r";
    assert line + "\r\n" + rest == s + "\n" + rest && s[..|line|] == line;
    FirstLine(s, rest);
  }

  lemma ConcatAssoc<T>(a: seq<T>, b: seq<T>, c: seq<T>)
    ensures (a + b) + c == a + (b + c)
  {}

  /** A text that is not empty and ends in a newline starts with a complete line. */
  lemma SplitFirstLine(s: string) returns (line: string, more: string)
    requires s != [] && EndsLine(s)
    ensures '\n' !in line && s == line + "\n" + more && EndsLine(more)
  {
    var k := LineEnd(s);
    assert s[|s| - 1] in s && s[..|s|] == s;
    line, more := s[..k], s[k + 1..];
  }

  lemma {:induction false} LinesOfConcat(body: string, rest: string)
    requires EndsLine(body)
    ensures Lines(body + rest) == Lines(body) + Lines(rest)
    decreases |body|
  {
    if body == [] {
      assert body + rest == rest;
    } else {
      var line, more := SplitFirstLine(body);
      FirstLine(line, more);
      FirstLine(line, more + rest);
      ConcatAssoc(line + "\n", more, rest);
      LinesOfConcat(more, rest);
      ConcatAssoc([DropCr(line)], Lines(more), Lines(rest));
    }
  }

  /** What follows the last newline. */
  function Tail(s: string): (t: string)
    ensures |t| <= |s| && t == s[|s| - |t|..] && '\n' !in t && EndsLine(s[..|s| - |t|])
  {
    if s == [] || s[|s| - 1] == '\n' then ""
    else
      var t := Tail(s[..|s| - 1]);
      var r := t + [s[|s| - 1]];
      assert s == s[..|s| - 1] + [s[|s| - 1]];
      assert s[..|s| - |r|] == s[..|s| - 1][..|s| - 1 - |t|];
      r
  }

  function Body(s: string): (b: string)
    ensures s == b + Tail(s) && EndsLine(b)
  {
    s[..|s| - |Tail(s)|]
  }

  lemma OneLine(line: string)
    requires '\n' !in line && line != [] && line[|line| - 1] != '\r'
    ensures Lines(line) == [line] && Lines(line + "\n") == [line]
  {
    assert LineEnd(line) == |line|;
    FirstLine(line, "");
    assert line + "\n" + "" == line + "\n";
  }

  /** Appending a line joins it to an unterminated tail. */
  lemma LinesOfAppend(content: string, line: string)
    requires '\n' !in line && line != [] && line[|line| - 1] != '\r'
    ensures Lines(content) == Lines(Body(content)) + Lines(Tail(content))
    ensures Lines(content + (line + "\n")) == Lines(Body(content)) + [Tail(content) + line]
  {
    var body, tail := Body(content), Tail(content);
    LinesOfConcat(body, tail);
    ConcatAssoc(body, tail, line + "\n");
    ConcatAssoc(tail, line, "\n");
    LinesOfConcat(body, tail + line + "\n");
    OneLine(tail + line);
  }

  lemma LinesOfTail(content: string)
    ensures Lines(Tail(content)) == if Tail(content) == [] then [] else [Tail(content)]
  {
    var tail := Tail(content);
    assert tail != [] ==> LineEnd(tail) == |tail|;
  }
}
