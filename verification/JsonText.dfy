/** Compact JSON text as serde_json prints it, and a reader that gives every printed value back. */
module JsonText {
  import opened Text

  predicate IsKey(k: string) {
    forall c :: c in k ==> c != '"' && c != '\\' && c as int >= 32
  }

  /** Member names are printed as they stand, so they may hold nothing that JSON would escape. */
  type Key = k: string | IsKey(k) witness ""

  predicate IsDelimiter(c: char) {
    c == ',' || c == ']' || c == '}'
  }

  predicate IsToken(t: string) {
    t != [] && t[0] != '"' && t[0] != '[' && t[0] != '{' && forall c :: c in t ==> !IsDelimiter(c)
  }

  /** Numbers and `null`, which JSON prints bare. */
  type Token = t: string | IsToken(t) witness "0"

  datatype Json = Str(text: string) | Bare(token: Token) | Arr(items: seq<Json>) | Obj(members: seq<Member>)
  datatype Member = Member(key: Key, value: Json)

  // ----- Strings

  function HexDigit(d: nat): (c: char)
    requires d < 16
  {
    if d < 10 then ('0' as int + d) as char else ('a' as int + (d - 10)) as char
  }

  /** Section 7 of RFC 8259: quote, backslash and the control characters are escaped. */
  function EscapeChar(c: char): (e: string)
    ensures e != [] && e[0] != '"'
  {
    if c == '"' then "\\\""
    else if c == '\\' then "\\\\"
    else if c == '\n' then "\\n"
    else if c == '\r' then "\\r"
    else if c == '\t' then "\\t"
    else if c as int == 8 then "\\b"
    else if c as int == 12 then "\\f"
    else if c as int < 32 then "\\u00" + [HexDigit(c as int / 16), HexDigit(c as int % 16)]
    else [c]
  }

  function Escape(s: string): string {
    if s == [] then "" else EscapeChar(s[0]) + Escape(s[1..])
  }

  function Quoted(s: string): string {
    "\"" + Escape(s) + "\""
  }

  // ----- Values

  function Render(v: Json): (s: string)
    ensures s != [] && !IsDelimiter(s[0])
    decreases v, 1
  {
    match v
    case Str(text) => Quoted(text)
    case Bare(token) => token
    case Arr(items) => "[" + Items(items) + "]"
    case Obj(members) => "{" + Members(members) + "}"
  }

  function Items(items: seq<Json>): (s: string)
    ensures items != [] ==> s != [] && !IsDelimiter(s[0])
    decreases items, 0
  {
    if items == [] then "" else Render(items[0]) + MoreItems(items[1..])
  }

  function MoreItems(items: seq<Json>): string
    decreases items, 0
  {
    if items == [] then "" else "," + Render(items[0]) + MoreItems(items[1..])
  }

  function RenderMember(m: Member): string
    decreases m, 1
  {
    "\"" + m.key + "\":" + Render(m.value)
  }

  function Members(members: seq<Member>): (s: string)
    ensures members != [] ==> s != [] && s[0] == '"'
    decreases members, 0
  {
    if members == [] then "" else RenderMember(members[0]) + MoreMembers(members[1..])
  }

  function MoreMembers(members: seq<Member>): string
    decreases members, 0
  {
    if members == [] then "" else "," + RenderMember(members[0]) + MoreMembers(members[1..])
  }

  /** What may follow a value. */
  predicate Delimited(s: string) {
    s != [] ==> IsDelimiter(s[0])
  }

  // ----- Reading a value, by the grammar of RFC 8259

  /** What a reader took from the front of a text, and what is left. */
  datatype Read<T> = Failed | Got(value: T, rest: string)

  function HexValue(c: char): (d: int)
    ensures -1 <= d < 16
  {
    if '0' <= c <= '9' then c as int - '0' as int
    else if 'a' <= c <= 'f' then c as int - 'a' as int + 10
    else if 'A' <= c <= 'F' then c as int - 'A' as int + 10
    else -1
  }

  /** Four hex digits. Surrogates, which stand for characters that are never printed escaped, are not read. */
  function ReadCode(s: string): (r: Read<char>)
    ensures r.Got? ==> |r.rest| < |s|
  {
    if |s| < 4 || (exists i :: 0 <= i < 4 && HexValue(s[i]) < 0) then Failed
    else
      var code := 4096 * HexValue(s[0]) + 256 * HexValue(s[1]) + 16 * HexValue(s[2]) + HexValue(s[3]);
      if 0xD800 <= code < 0xE000 then Failed else Got(code as char, s[4..])
  }

  /** One character of a string, unescaped by section 7 of RFC 8259. */
  function ReadChar(s: string): (r: Read<char>)
    ensures r.Got? ==> |r.rest| < |s|
  {
    if s == [] || s[0] == '"' || s[0] as int < 32 then Failed
    else if s[0] != '\\' then Got(s[0], s[1..])
    else if |s| < 2 then Failed
    else if s[1] == '"' || s[1] == '\\' || s[1] == '/' then Got(s[1], s[2..])
    else if s[1] == 'b' then Got(8 as char, s[2..])
    else if s[1] == 't' then Got(9 as char, s[2..])
    else if s[1] == 'n' then Got(10 as char, s[2..])
    else if s[1] == 'f' then Got(12 as char, s[2..])
    else if s[1] == 'r' then Got(13 as char, s[2..])
    else if s[1] == 'u' then ReadCode(s[2..])
    else Failed
  }

  /** A string behind its opening quote, up to the first quote that is not escaped. */
  function ReadString(s: string): (r: Read<string>)
    ensures r.Got? ==> |r.rest| < |s|
    decreases |s|
  {
    if s == [] then Failed
    else if s[0] == '"' then Got("", s[1..])
    else
      var first := ReadChar(s);
      if first.Failed? then Failed
      else
        var more := ReadString(first.rest);
        if more.Failed? then Failed else Got([first.value] + more.value, more.rest)
  }

  function TokenEnd(s: string): (k: nat)
    ensures k <= |s| && (forall c :: c in s[..k] ==> !IsDelimiter(c)) && (k < |s| ==> IsDelimiter(s[k]))
  {
    if s == [] || IsDelimiter(s[0]) then 0
    else
      var k := 1 + TokenEnd(s[1..]);
      assert s[..k] == [s[0]] + s[1..][..k - 1];
      k
  }

  function ReadValue(s: string): (r: Read<Json>)
    ensures r.Got? ==> |r.rest| < |s|
    decreases |s|, 0
  {
    if s == [] then Failed
    else if s[0] == '"' then
      var text := ReadString(s[1..]);
      if text.Failed? then Failed else Got(Str(text.value), text.rest)
    else if s[0] == '[' then
      if |s| > 1 && s[1] == ']' then Got(Arr([]), s[2..])
      else
        var items := ReadItems(s[1..]);
        if items.Failed? then Failed else Got(Arr(items.value), items.rest)
    else if s[0] == '{' then
      if |s| > 1 && s[1] == '}' then Got(Obj([]), s[2..])
      else
        var members := ReadMembers(s[1..]);
        if members.Failed? then Failed else Got(Obj(members.value), members.rest)
    else
      var k := TokenEnd(s);
      if IsToken(s[..k]) then Got(Bare(s[..k]), s[k..]) else Failed
  }

  /** One value or more, with commas between them, up to the closing bracket. */
  function ReadItems(s: string): (r: Read<seq<Json>>)
    ensures r.Got? ==> |r.rest| < |s|
    decreases |s|, 1
  {
    var first := ReadValue(s);
    if first.Failed? || first.rest == [] then Failed
    else if first.rest[0] == ']' then Got([first.value], first.rest[1..])
    else if first.rest[0] != ',' then Failed
    else
      var more := ReadItems(first.rest[1..]);
      if more.Failed? then Failed else Got([first.value] + more.value, more.rest)
  }

  function ReadMember(s: string): (r: Read<Member>)
    ensures r.Got? ==> |r.rest| < |s|
    decreases |s|, 1
  {
    if s == [] || s[0] != '"' then Failed
    else
      var key := ReadString(s[1..]);
      if key.Failed? || !IsKey(key.value) || key.rest == [] || key.rest[0] != ':' then Failed
      else
        var value := ReadValue(key.rest[1..]);
        if value.Failed? then Failed else Got(Member(key.value, value.value), value.rest)
  }

  function ReadMembers(s: string): (r: Read<seq<Member>>)
    ensures r.Got? ==> |r.rest| < |s|
    decreases |s|, 2
  {
    var first := ReadMember(s);
    if first.Failed? || first.rest == [] then Failed
    else if first.rest[0] == '}' then Got([first.value], first.rest[1..])
    else if first.rest[0] != ',' then Failed
    else
      var more := ReadMembers(first.rest[1..]);
      if more.Failed? then Failed else Got([first.value] + more.value, more.rest)
  }

  // ----- What is printed is read back

  lemma HexReadsBack(d: nat)
    requires d < 16
    ensures HexValue(HexDigit(d)) == d
  {}

  lemma CodeReadsBack(n: nat, x: string)
    requires n < 32
    ensures ReadCode("00" + [HexDigit(n / 16), HexDigit(n % 16)] + x) == Got(n as char, x)
  {
    var s := "00" + [HexDigit(n / 16), HexDigit(n % 16)] + x;
    HexReadsBack(n / 16);
    HexReadsBack(n % 16);
    assert s[0] == '0' && s[1] == '0' && s[2] == HexDigit(n / 16) && s[3] == HexDigit(n % 16) && s[4..] == x;
  }

  lemma CharReadsBack(c: char, x: string)
    ensures ReadChar(EscapeChar(c) + x) == Got(c, x)
  {
    var e := EscapeChar(c);
    assert (e + x)[0] == e[0] && (e + x)[|e|..] == x;
    if |e| == 2 {
      assert (e + x)[1] == e[1];
    } else if |e| == 6 {
      var code := "00" + [HexDigit(c as int / 16), HexDigit(c as int % 16)];
      assert (e + x)[1] == 'u' && (e + x)[2..] == code + x;
      CodeReadsBack(c as int, x);
    }
  }

  lemma {:induction false} StringReadsBack(s: string, x: string)
    ensures ReadString(Escape(s) + ("\"" + x)) == Got(s, x)
  {
    var u := Escape(s) + ("\"" + x);
    if s == [] {
      assert u == "\"" + x;
    } else {
      ConcatAssoc(EscapeChar(s[0]), Escape(s[1..]), "\"" + x);
      CharReadsBack(s[0], Escape(s[1..]) + ("\"" + x));
      StringReadsBack(s[1..], x);
      assert u[0] == EscapeChar(s[0])[0] && s == [s[0]] + s[1..];
    }
  }

  lemma {:induction false} KeyIsPlain(k: Key)
    ensures Escape(k) == k
  {
    if k != [] {
      assert k[0] in k && forall c :: c in k[1..] ==> c in k;
      KeyIsPlain(k[1..]);
      assert k == [k[0]] + k[1..];
    }
  }

  lemma TokenReadsBack(t: Token, x: string)
    requires Delimited(x)
    ensures ReadValue(t + x) == Got(Bare(t), x)
  {
    var s := t + x;
    var k := TokenEnd(s);
    SpanUnique(c => !IsDelimiter(c), s[..k], s[k..], t, x);
    assert s[0] == t[0];
  }

  lemma QuotedPeel(s: string, x: string)
    ensures (Quoted(s) + x)[0] == '"' && (Quoted(s) + x)[1..] == Escape(s) + ("\"" + x)
  {
    assert Quoted(s) + x == "\"" + (Escape(s) + ("\"" + x));
  }

  lemma BracketPeel(open: string, inner: string, close: string, x: string)
    requires |open| == 1
    ensures var s := (open + inner + close) + x; s[0] == open[0] && s[1..] == inner + (close + x)
  {
    assert (open + inner + close) + x == open + (inner + (close + x));
  }

  lemma MoreIsComma(items: seq<Json>)
    ensures MoreItems(items) == if items == [] then "" else "," + Items(items)
  {
    if items != [] {
      ConcatAssoc(",", Render(items[0]), MoreItems(items[1..]));
    }
  }

  lemma MoreMembersComma(members: seq<Member>)
    ensures MoreMembers(members) == if members == [] then "" else "," + Members(members)
  {
    if members != [] {
      ConcatAssoc(",", RenderMember(members[0]), MoreMembers(members[1..]));
    }
  }

  /** Every printed value, whatever delimiter follows it, is read back as it was. */
  lemma {:induction false} ReadsBack(v: Json, x: string)
    requires Delimited(x)
    ensures ReadValue(Render(v) + x) == Got(v, x)
    decreases v, 3
  {
    match v
    case Str(text) =>
      QuotedPeel(text, x);
      StringReadsBack(text, x);
    case Bare(token) =>
      TokenReadsBack(token, x);
    case Arr(items) =>
      ArrReadsBack(items, x);
    case Obj(members) =>
      ObjReadsBack(members, x);
  }

  lemma ArrReadsBack(items: seq<Json>, x: string)
    requires Delimited(x)
    ensures ReadValue(Render(Arr(items)) + x) == Got(Arr(items), x)
    decreases items, 2
  {
    var s := Render(Arr(items)) + x;
    BracketPeel("[", Items(items), "]", x);
    if items == [] {
      assert s[1..] == "]" + x && s[2..] == x;
    } else {
      assert s[1] == s[1..][0] == Items(items)[0];
      ItemsReadBack(items, x);
    }
  }

  lemma ItemsStep(s: string, first: Json, tail: string, items: seq<Json>, x: string)
    requires ReadValue(s) == Got(first, "," + tail) && ReadItems(tail) == Got(items, x)
    ensures ReadItems(s) == Got([first] + items, x)
  {
    assert ("," + tail)[1..] == tail;
  }

  lemma ItemsEnd(s: string, last: Json, x: string)
    requires ReadValue(s) == Got(last, "]" + x)
    ensures ReadItems(s) == Got([last], x)
  {
    assert ("]" + x)[1..] == x;
  }

  lemma {:induction false} ItemsReadBack(items: seq<Json>, x: string)
    requires items != []
    ensures ReadItems(Items(items) + ("]" + x)) == Got(items, x)
    decreases items, 1
  {
    var s, more, close := Items(items) + ("]" + x), MoreItems(items[1..]), "]" + x;
    ConcatAssoc(Render(items[0]), more, close);
    MoreIsComma(items[1..]);
    ReadsBack(items[0], more + close);
    assert items == [items[0]] + items[1..];
    if items[1..] == [] {
      assert more + close == close && items == [items[0]];
      ItemsEnd(s, items[0], x);
    } else {
      ConcatAssoc(",", Items(items[1..]), close);
      ItemsReadBack(items[1..], x);
      ItemsStep(s, items[0], Items(items[1..]) + close, items[1..], x);
    }
  }

  lemma ObjReadsBack(members: seq<Member>, x: string)
    requires Delimited(x)
    ensures ReadValue(Render(Obj(members)) + x) == Got(Obj(members), x)
    decreases members, 3
  {
    var s := Render(Obj(members)) + x;
    BracketPeel("{", Members(members), "}", x);
    if members == [] {
      assert s[1..] == "}" + x && s[2..] == x;
    } else {
      assert s[1] == s[1..][0] == Members(members)[0] == '"';
      MembersReadBack(members, x);
    }
  }

  lemma MemberIsRead(s: string, key: string, tail: string, value: Json, x: string)
    requires s != [] && s[0] == '"' && IsKey(key)
    requires ReadString(s[1..]) == Got(key, ":" + tail) && ReadValue(tail) == Got(value, x)
    ensures ReadMember(s) == Got(Member(key, value), x)
  {
    assert (":" + tail)[1..] == tail;
  }

  lemma MemberPeel(key: string, value: string, x: string)
    ensures var s := "\"" + key + "\":" + value + x; s[0] == '"' && s[1..] == key + ("\"" + (":" + (value + x)))
  {
    assert "\"" + key + "\":" + value + x == "\"" + (key + ("\"" + (":" + (value + x))));
  }

  lemma MemberReadsBack(m: Member, x: string)
    requires Delimited(x)
    ensures ReadMember(RenderMember(m) + x) == Got(m, x)
    decreases m, 4
  {
    KeyIsPlain(m.key);
    MemberPeel(m.key, Render(m.value), x);
    StringReadsBack(m.key, ":" + (Render(m.value) + x));
    ReadsBack(m.value, x);
    MemberIsRead(RenderMember(m) + x, m.key, Render(m.value) + x, m.value, x);
  }

  lemma MembersStep(s: string, first: Member, tail: string, members: seq<Member>, x: string)
    requires ReadMember(s) == Got(first, "," + tail) && ReadMembers(tail) == Got(members, x)
    ensures ReadMembers(s) == Got([first] + members, x)
  {
    assert ("," + tail)[1..] == tail;
  }

  lemma MembersEnd(s: string, last: Member, x: string)
    requires ReadMember(s) == Got(last, "}" + x)
    ensures ReadMembers(s) == Got([last], x)
  {
    assert ("}" + x)[1..] == x;
  }

  lemma {:induction false} MembersReadBack(members: seq<Member>, x: string)
    requires members != []
    ensures ReadMembers(Members(members) + ("}" + x)) == Got(members, x)
    decreases members, 1
  {
    var s, more, close := Members(members) + ("}" + x), MoreMembers(members[1..]), "}" + x;
    ConcatAssoc(RenderMember(members[0]), more, close);
    MoreMembersComma(members[1..]);
    MemberReadsBack(members[0], more + close);
    assert members == [members[0]] + members[1..];
    if members[1..] == [] {
      assert more + close == close && members == [members[0]];
      MembersEnd(s, members[0], x);
    } else {
      ConcatAssoc(",", Members(members[1..]), close);
      MembersReadBack(members[1..], x);
      MembersStep(s, members[0], Members(members[1..]) + close, members[1..], x);
    }
  }

  // ----- So a text can be read in one way only

  /** A quoted string ends at its first unescaped quote. */
  lemma EscapeUnique(s: string, x: string, t: string, y: string)
    requires Escape(s) + ("\"" + x) == Escape(t) + ("\"" + y)
    ensures s == t && x == y
  {
    StringReadsBack(s, x);
    StringReadsBack(t, y);
  }

  lemma RenderUnique(v: Json, x: string, w: Json, y: string)
    requires Render(v) + x == Render(w) + y && Delimited(x) && Delimited(y)
    ensures v == w && x == y
  {
    ReadsBack(v, x);
    ReadsBack(w, y);
  }

  /** One JSON text prints one value. */
  lemma RenderInjective(v: Json, w: Json)
    ensures Render(v) == Render(w) <==> v == w
  {
    if Render(v) == Render(w) {
      assert Render(v) + "" == Render(v) && Render(w) + "" == Render(w);
      RenderUnique(v, "", w, "");
    }
  }
}
