/**
 JSON texts as the stream fields hold them: what json.dumps writes with its default settings, and a reader for the
 JSON texts of RFC 8259. Reading what was written gives the value back.
 */
module JsonText {
  import opened Domain

  /**
   A value of section 3 of RFC 8259 as Python holds it, or a float that is no number there. A number stands for the
   text that Python writes for it; an object is a dict, in insertion order. Strings are sequences of Unicode scalar
   values (no lone surrogates).
   */
  datatype Json =
    | Null
    | Bool(b: bool)
    | Number(text: string)
    | Str(s: string)
    | Arr(items: seq<Json>)
    | Obj(members: seq<(string, Json)>)

  /******* Numbers *******/

  predicate IsDigit(c: char) {
    '0' <= c <= '9'
  }

  predicate InNumber(c: char) {
    IsDigit(c) || c == '-' || c == '+' || c == '.' || c == 'e' || c == 'E'
  }

  /** The leading characters that a number may have. */
  function NumberRun(text: string): (n: nat)
    ensures n <= |text|
  {
    if |text| == 0 || !InNumber(text[0]) then 0 else 1 + NumberRun(text[1..])
  }

  function DigitRun(text: string): (n: nat)
    ensures n <= |text|
  {
    if |text| == 0 || !IsDigit(text[0]) then 0 else 1 + DigitRun(text[1..])
  }

  /** Drops an optional sign, digits without a leading zero, an optional fraction and an optional exponent. */
  predicate IsNumber(text: string) {
    var unsigned := if |text| > 0 && text[0] == '-' then text[1..] else text;
    var whole := DigitRun(unsigned);
    && 0 < whole && (unsigned[0] == '0' ==> whole == 1)
    && IsFraction(unsigned[whole..])
  }

  predicate IsFraction(text: string) {
    if |text| > 0 && text[0] == '.' then
      var digits := DigitRun(text[1..]);
      0 < digits && IsExponent(text[1 + digits..])
    else IsExponent(text)
  }

  predicate IsExponent(text: string) {
    |text| == 0
    || ((text[0] == 'e' || text[0] == 'E')
        && var digits := if |text| > 1 && (text[1] == '+' || text[1] == '-') then text[2..] else text[1..];
           0 < |digits| == DigitRun(digits))
  }

  /** A number's own text: the grammar of section 6 of RFC 8259. */
  predicate NumberText(text: string) {
    IsNumber(text) && NumberRun(text) == |text|
  }

  /** What Python writes, and reads, for the floats that are no numbers of RFC 8259. */
  predicate SpecialText(text: string) {
    text == "NaN" || text == "Infinity" || text == "-Infinity"
  }

  /******* Values that json.dumps writes and json.loads reads back *******/

  ghost predicate Valid(v: Json) {
    match v
    case Number(text) => NumberText(text) || SpecialText(text)
    case Arr(items) => forall i | 0 <= i < |items| :: Valid(items[i])
    case Obj(members) =>
      && (forall i | 0 <= i < |members| :: Valid(members[i].1))
      && (forall i, j | 0 <= i < j < |members| :: members[i].0 != members[j].0)
    case _ => true
  }

  /******* Strings *******/

  function HexDigit(n: nat): (c: char)
    requires n < 16
  {
    if n < 10 then '0' + n as char else 'a' + (n - 10) as char
  }

  function HexValue(c: char): Option<nat> {
    if '0' <= c <= '9' then Some((c - '0') as nat)
    else if 'a' <= c <= 'f' then Some((c - 'a') as nat + 10)
    else if 'A' <= c <= 'F' then Some((c - 'A') as nat + 10)
    else None
  }

  function Hex4(n: nat): (r: string)
    requires n < 0x10000
    ensures |r| == 4
  {
    var q1 := n / 16;
    var q2 := q1 / 16;
    [HexDigit(q2 / 16), HexDigit(q2 % 16), HexDigit(q1 % 16), HexDigit(n % 16)]
  }

  function Unicode(n: nat): (r: string)
    requires n < 0x10000
    ensures |r| == 6
  {
    ['\\', 'u'] + Hex4(n)
  }

  function HighSurrogate(n: nat): (r: nat)
    requires 0x10000 <= n < 0x110000
    ensures 0xD800 <= r < 0xDC00
  {
    0xD800 + (n - 0x10000) / 0x400
  }

  function LowSurrogate(n: nat): (r: nat)
    requires 0x10000 <= n < 0x110000
    ensures 0xDC00 <= r < 0xE000
  {
    0xDC00 + (n - 0x10000) % 0x400
  }

  /** A character inside a string literal: ASCII output, so everything outside ' ' .. '~' is escaped. */
  function Escaped(c: char): (r: string)
    ensures |r| > 0
  {
    var n := c as nat;
    if c == '"' then ['\\', '"']
    else if c == '\\' then ['\\', '\\']
    else if c == '\n' then ['\\', 'n']
    else if c == '\r' then ['\\', 'r']
    else if c == '\t' then ['\\', 't']
    else if n == 8 then ['\\', 'b']
    else if n == 12 then ['\\', 'f']
    else if ' ' <= c <= '~' then [c]
    else if n < 0x10000 then Unicode(n)
    else Unicode(HighSurrogate(n)) + Unicode(LowSurrogate(n))
  }

  /** The four hexadecimal digits at the front. */
  function ReadHex4(text: string): Option<nat> {
    if |text| < 4 then None
    else
      var a, b, c, d := HexValue(text[0]), HexValue(text[1]), HexValue(text[2]), HexValue(text[3]);
      if a.None? || b.None? || c.None? || d.None? then None
      else Some(a.value * 4096 + b.value * 256 + c.value * 16 + d.value)
  }

  function SimpleEscape(c: char): Option<char> {
    if c == '"' || c == '\\' || c == '/' then Some(c)
    else if c == 'n' then Some('\n')
    else if c == 'r' then Some('\r')
    else if c == 't' then Some('\t')
    else if c == 'b' then Some(8 as char)
    else if c == 'f' then Some(12 as char)
    else None
  }

  /** The character of a surrogate pair. */
  function Paired(high: nat, low: nat): (n: nat)
    requires 0xD800 <= high < 0xDC00 <= low < 0xE000
    ensures 0x10000 <= n < 0x110000
  {
    0x10000 + (high - 0xD800) * 0x400 + (low - 0xDC00)
  }

  /** The character that a \u escape stands for, with the rest; a surrogate must be half of a pair. */
  function ReadUnicode(text: string): (r: Option<(char, string)>)
    ensures r.Some? ==> |r.value.1| < |text|
  {
    var n := ReadHex4(text);
    if n.None? then None
    else if n.value < 0xD800 || 0xE000 <= n.value <= 0xFFFF then Some((n.value as char, text[4..]))
    else if n.value >= 0xDC00 || |text| < 6 || text[4] != '\\' || text[5] != 'u' then None
    else
      var low := ReadHex4(text[6..]);
      if low.None? || low.value < 0xDC00 || 0xE000 <= low.value then None
      else Some((Paired(n.value, low.value) as char, text[10..]))
  }

  /** The next character of a string literal, with the rest. */
  function ReadChar(text: string): (r: Option<(char, string)>)
    ensures r.Some? ==> |r.value.1| < |text|
  {
    if |text| == 0 || text[0] < ' ' then None
    else if text[0] != '\\' then Some((text[0], text[1..]))
    else if |text| == 1 then None
    else if text[1] == 'u' then ReadUnicode(text[2..])
    else
      var c := SimpleEscape(text[1]);
      if c.None? then None else Some((c.value, text[2..]))
  }

  /** The characters up to the closing quote, with the rest behind it. */
  function ReadChars(text: string): (r: Option<(string, string)>)
    ensures r.Some? ==> |r.value.0| + |r.value.1| < |text|
    decreases |text|
  {
    if |text| == 0 then None
    else if text[0] == '"' then Some(([], text[1..]))
    else
      var c := ReadChar(text);
      if c.None? then None
      else
        var more := ReadChars(c.value.1);
        if more.None? then None else Some(([c.value.0] + more.value.0, more.value.1))
  }

  /******* Writing: the text of a value followed by `rest` *******/

  function WriteChars(s: string, rest: string): string {
    if |s| == 0 then ['"'] + rest else Escaped(s[0]) + WriteChars(s[1..], rest)
  }

  function WriteString(s: string, rest: string): string {
    ['"'] + WriteChars(s, rest)
  }

  function Width(v: Json): nat {
    if v.Arr? then |v.items| + 1 else if v.Obj? then |v.members| + 1 else 0
  }

  function Write(v: Json, rest: string): string
    decreases v, Width(v)
  {
    match v
    case Null => "null" + rest
    case Bool(b) => (if b then "true" else "false") + rest
    case Number(text) => text + rest
    case Str(s) => WriteString(s, rest)
    case Arr(items) => ['['] + if |items| == 0 then [']'] + rest else WriteItems(v, 0, [']'] + rest)
    case Obj(members) => ['{'] + if |members| == 0 then ['}'] + rest else WriteMembers(v, 0, ['}'] + rest)
  }

  /** The items of an array from the i-th on, separated by a comma and a space. */
  function WriteItems(v: Json, i: nat, rest: string): string
    requires v.Arr? && i < |v.items|
    decreases v, |v.items| - i
  {
    Write(v.items[i], if i == |v.items| - 1 then rest else [',', ' '] + WriteItems(v, i + 1, rest))
  }

  function WriteMembers(v: Json, i: nat, rest: string): string
    requires v.Obj? && i < |v.members|
    decreases v, |v.members| - i
  {
    var more := if i == |v.members| - 1 then rest else [',', ' '] + WriteMembers(v, i + 1, rest);
    WriteString(v.members[i].0, [':', ' '] + Write(v.members[i].1, more))
  }

  /** json.dumps */
  function Dumps(v: Json): string {
    Write(v, [])
  }

  /******* Reading *******/

  predicate IsSpace(c: char) {
    c == ' ' || c == '\n' || c == '\r' || c == '\t'
  }

  function SkipSpace(text: string): (r: string)
    ensures |r| <= |text|
  {
    if |text| > 0 && IsSpace(text[0]) then SkipSpace(text[1..]) else text
  }

  /** A dict from its pairs: a repeated key keeps its place and takes the last value. */
  function PutMember(members: seq<(string, Json)>, key: string, value: Json): seq<(string, Json)> {
    if |members| == 0 then [(key, value)]
    else if members[0].0 == key then [(key, value)] + members[1..]
    else [members[0]] + PutMember(members[1..], key, value)
  }

  function DictOf(pairs: seq<(string, Json)>): seq<(string, Json)> {
    if |pairs| == 0 then []
    else PutMember(DictOf(pairs[..|pairs| - 1]), pairs[|pairs| - 1].0, pairs[|pairs| - 1].1)
  }

  function ReadLiteral(text: string, literal: string, v: Json): Option<(Json, string)> {
    if literal <= text then Some((v, text[|literal|..])) else None
  }

  function Read(text: string): (r: Option<(Json, string)>)
    ensures r.Some? ==> |r.value.1| < |text|
    decreases |text|, 0
  {
    if |text| == 0 then None
    else if text[0] == '"' then
      var s := ReadChars(text[1..]);
      if s.None? then None else Some((Str(s.value.0), s.value.1))
    else if text[0] == '[' then
      var inner := SkipSpace(text[1..]);
      if |inner| > 0 && inner[0] == ']' then Some((Arr([]), inner[1..]))
      else
        var items := ReadItems(inner);
        if items.None? then None else Some((Arr(items.value.0), items.value.1))
    else if text[0] == '{' then
      var inner := SkipSpace(text[1..]);
      if |inner| > 0 && inner[0] == '}' then Some((Obj([]), inner[1..]))
      else
        var pairs := ReadMembers(inner);
        if pairs.None? then None else Some((Obj(DictOf(pairs.value.0)), pairs.value.1))
    else if text[0] == 'n' then ReadLiteral(text, "null", Null)
    else if text[0] == 't' then ReadLiteral(text, "true", Bool(true))
    else if text[0] == 'f' then ReadLiteral(text, "false", Bool(false))
    else if text[0] == 'N' then ReadLiteral(text, "NaN", Number("NaN"))
    else if text[0] == 'I' then ReadLiteral(text, "Infinity", Number("Infinity"))
    else if text[0] == '-' && |text| > 1 && text[1] == 'I' then ReadLiteral(text, "-Infinity", Number("-Infinity"))
    else
      var n := NumberRun(text);
      if IsNumber(text[..n]) then Some((Number(text[..n]), text[n..])) else None
  }

  /** The items up to the closing bracket, with the rest behind it. */
  function ReadItems(text: string): (r: Option<(seq<Json>, string)>)
    ensures r.Some? ==> |r.value.1| < |text|
    decreases |text|, 1
  {
    var item := Read(text);
    if item.None? then None
    else
      var rest := SkipSpace(item.value.1);
      if |rest| == 0 then None
      else if rest[0] == ']' then Some(([item.value.0], rest[1..]))
      else if rest[0] != ',' then None
      else
        var more := ReadItems(SkipSpace(rest[1..]));
        if more.None? then None else Some(([item.value.0] + more.value.0, more.value.1))
  }

  function ReadMembers(text: string): (r: Option<(seq<(string, Json)>, string)>)
    ensures r.Some? ==> |r.value.1| < |text|
    decreases |text|, 1
  {
    if |text| == 0 || text[0] != '"' then None
    else
      var key := ReadChars(text[1..]);
      if key.None? then None
      else
        var colon := SkipSpace(key.value.1);
        if |colon| == 0 || colon[0] != ':' then None
        else
          var value := Read(SkipSpace(colon[1..]));
          if value.None? then None
          else
            var rest := SkipSpace(value.value.1);
            if |rest| == 0 then None
            else if rest[0] == '}' then Some(([(key.value.0, value.value.0)], rest[1..]))
            else if rest[0] != ',' then None
            else
              var more := ReadMembers(SkipSpace(rest[1..]));
              if more.None? then None
              else Some(([(key.value.0, value.value.0)] + more.value.0, more.value.1))
  }

  /** json.loads; none when it raises. */
  function Loads(text: string): Option<Json> {
    var v := Read(SkipSpace(text));
    if v.Some? && SkipSpace(v.value.1) == [] then Some(v.value.0) else None
  }

  /******* Reading back what was written *******/

  lemma HexDigitRead(n: nat)
    requires n < 16
    ensures HexValue(HexDigit(n)) == Some(n)
  {
  }

  lemma DigitsRead(a: nat, b: nat, c: nat, d: nat, tail: string)
    requires a < 16 && b < 16 && c < 16 && d < 16
    ensures ReadHex4([HexDigit(a), HexDigit(b), HexDigit(c), HexDigit(d)] + tail)
            == Some(a * 4096 + b * 256 + c * 16 + d)
  {
    HexDigitRead(a);
    HexDigitRead(b);
    HexDigitRead(c);
    HexDigitRead(d);
  }

  lemma Hex4Read(n: nat, tail: string)
    requires n < 0x10000
    ensures ReadHex4(Hex4(n) + tail) == Some(n)
  {
    var q1 := n / 16;
    var q2 := q1 / 16;
    DigitsRead(q2 / 16, q2 % 16, q1 % 16, n % 16, tail);
  }

  lemma PairUndone(n: nat)
    requires 0x10000 <= n < 0x110000
    ensures Paired(HighSurrogate(n), LowSurrogate(n)) == n
  {
  }

  lemma {:induction false} PairRead(high: nat, low: nat, tail: string)
    requires 0xD800 <= high < 0xDC00 <= low < 0xE000
    ensures ReadUnicode(Hex4(high) + Unicode(low) + tail) == Some((Paired(high, low) as char, tail))
  {
    var text := Hex4(high) + Unicode(low) + tail;
    assert text == Hex4(high) + (Unicode(low) + tail);
    Hex4Read(high, Unicode(low) + tail);
    assert text[4] == '\\' && text[5] == 'u' && text[6..] == Hex4(low) + tail;
    Hex4Read(low, tail);
    assert text[10..] == tail;
  }

  lemma {:induction false} UnicodeRead(c: char, tail: string)
    requires c as nat < 0x10000
    ensures ReadChar(Unicode(c as nat) + tail) == Some((c, tail))
  {
    var n := c as nat;
    var text := Unicode(n) + tail;
    assert text[0] == '\\' && text[1] == 'u' && text[2..] == Hex4(n) + tail;
    Hex4Read(n, tail);
    assert (Hex4(n) + tail)[4..] == tail;
  }

  lemma {:induction false} SurrogatesRead(high: nat, low: nat, tail: string)
    requires 0xD800 <= high < 0xDC00 <= low < 0xE000
    ensures ReadChar(Unicode(high) + Unicode(low) + tail) == Some((Paired(high, low) as char, tail))
  {
    var text := Unicode(high) + Unicode(low) + tail;
    PairRead(high, low, tail);
    assert text[0] == '\\' && text[1] == 'u' && text[2..] == Hex4(high) + Unicode(low) + tail;
  }

  lemma {:induction false} EscapedRead(c: char, tail: string)
    ensures ReadChar(Escaped(c) + tail) == Some((c, tail))
    ensures Escaped(c)[0] != '"'
  {
    var text := Escaped(c) + tail;
    if |Escaped(c)| == 1 {
      assert text[1..] == tail;
    } else if |Escaped(c)| == 2 {
      assert text[2..] == tail;
    } else if c as nat < 0x10000 {
      UnicodeRead(c, tail);
    } else {
      PairUndone(c as nat);
      SurrogatesRead(HighSurrogate(c as nat), LowSurrogate(c as nat), tail);
    }
  }

  lemma {:induction false} CharsRead(s: string, rest: string)
    ensures ReadChars(WriteChars(s, rest)) == Some((s, rest))
  {
    var text := WriteChars(s, rest);
    if |s| == 0 {
      assert text[1..] == rest;
    } else {
      EscapedRead(s[0], WriteChars(s[1..], rest));
      CharsRead(s[1..], rest);
      assert text[0] == Escaped(s[0])[0];
      assert [s[0]] + s[1..] == s;
    }
  }

  /** Behind a number there must be none of its characters. */
  predicate Ends(rest: string) {
    |rest| == 0 || !InNumber(rest[0])
  }

  lemma {:induction false} NumberRunStops(text: string, rest: string)
    requires NumberRun(text) == |text| && Ends(rest)
    ensures NumberRun(text + rest) == |text|
  {
    if |text| == 0 {
      assert text + rest == rest;
    } else {
      assert (text + rest)[1..] == text[1..] + rest;
      NumberRunStops(text[1..], rest);
    }
  }

  lemma NumberRead(text: string, rest: string)
    requires NumberText(text) && Ends(rest)
    ensures Read(text + rest) == Some((Number(text), rest))
  {
    NumberRunStops(text, rest);
    var all := text + rest;
    assert |text| > 0 && InNumber(text[0]) && all[0] == text[0];
    assert text[0] == '-' || IsDigit(text[0]);
    assert text[0] == '-' ==> |text| > 1 && IsDigit(text[1]) && all[1] == text[1];
    assert all[..|text|] == text && all[|text|..] == rest;
  }

  lemma LiteralRead(literal: string, v: Json, rest: string)
    ensures ReadLiteral(literal + rest, literal, v) == Some((v, rest))
  {
    assert (literal + rest)[|literal|..] == rest;
  }

  lemma {:induction false} PutNew(members: seq<(string, Json)>, key: string, value: Json)
    requires forall i | 0 <= i < |members| :: members[i].0 != key
    ensures PutMember(members, key, value) == members + [(key, value)]
  {
    if |members| > 0 {
      PutNew(members[1..], key, value);
      assert [members[0]] + (members[1..] + [(key, value)]) == members + [(key, value)];
    }
  }

  lemma {:induction false} DistinctDict(pairs: seq<(string, Json)>)
    requires forall i, j | 0 <= i < j < |pairs| :: pairs[i].0 != pairs[j].0
    ensures DictOf(pairs) == pairs
  {
    if |pairs| > 0 {
      var n := |pairs| - 1;
      DistinctDict(pairs[..n]);
      PutNew(pairs[..n], pairs[n].0, pairs[n].1);
      assert pairs[..n] + [(pairs[n].0, pairs[n].1)] == pairs;
    }
  }

  /** The first character of a value's text: no space, no closing bracket. */
  lemma WriteStarts(v: Json, rest: string)
    requires Valid(v)
    ensures |Write(v, rest)| > 0 && !IsSpace(Write(v, rest)[0]) && Write(v, rest)[0] != ']'
  {
    if v.Number? {
      assert Write(v, rest)[0] == v.text[0];
      assert InNumber(v.text[0]) || v.text[0] == 'N' || v.text[0] == 'I';
    }
  }

  /** An array is read once its items are. */
  lemma ArrayIsRead(v: Json, rest: string)
    requires Valid(v) && v.Arr?
    requires |v.items| > 0 ==> ReadItems(WriteItems(v, 0, [']'] + rest)) == Some((v.items, rest))
    ensures Read(Write(v, rest)) == Some((v, rest))
  {
    var text := Write(v, rest);
    if |v.items| == 0 {
      assert text[1..] == [']'] + rest && ([']'] + rest)[1..] == rest;
      assert SkipSpace(text[1..]) == text[1..];
    } else {
      assert text[1..] == WriteItems(v, 0, [']'] + rest);
      ItemsStart(v, 0, [']'] + rest);
    }
  }

  /** An object is read once its members are. */
  lemma {:induction false} ObjectIsRead(v: Json, rest: string)
    requires Valid(v) && v.Obj?
    requires |v.members| > 0 ==> ReadMembers(WriteMembers(v, 0, ['}'] + rest)) == Some((v.members, rest))
    ensures Read(Write(v, rest)) == Some((v, rest))
  {
    var text := Write(v, rest);
    if |v.members| == 0 {
      assert text[1..] == ['}'] + rest && (['}'] + rest)[1..] == rest;
      assert SkipSpace(text[1..]) == text[1..];
    } else {
      assert text[1..] == WriteMembers(v, 0, ['}'] + rest);
      MembersStart(v, 0, ['}'] + rest);
      DistinctDict(v.members);
    }
  }

  lemma SpecialRead(text: string, rest: string)
    requires SpecialText(text)
    ensures Read(text + rest) == Some((Number(text), rest))
  {
    LiteralRead(text, Number(text), rest);
    assert (text + rest)[0] == text[0] && (text + rest)[1] == text[1];
  }

  lemma ScalarIsRead(v: Json, rest: string)
    requires Valid(v) && Ends(rest) && !v.Arr? && !v.Obj?
    ensures Read(Write(v, rest)) == Some((v, rest))
  {
    match v
    case Null => LiteralRead("null", v, rest);
    case Bool(b) => LiteralRead(if b then "true" else "false", v, rest);
    case Number(number) =>
      if SpecialText(number) {
        SpecialRead(number, rest);
      } else {
        NumberRead(number, rest);
      }
    case Str(s) =>
      CharsRead(s, rest);
      assert Write(v, rest)[1..] == WriteChars(s, rest);
  }

  /** Reading the text of a value gives the value, and leaves what follows it. */
  lemma {:induction false} WrittenIsRead(v: Json, rest: string)
    requires Valid(v) && Ends(rest)
    ensures Read(Write(v, rest)) == Some((v, rest))
    decreases v, Width(v)
  {
    if v.Arr? {
      if |v.items| > 0 {
        ItemsAreRead(v, 0, rest);
        assert v.items[0..] == v.items;
      }
      ArrayIsRead(v, rest);
    } else if v.Obj? {
      if |v.members| > 0 {
        MembersAreRead(v, 0, rest);
        assert v.members[0..] == v.members;
      }
      ObjectIsRead(v, rest);
    } else {
      ScalarIsRead(v, rest);
    }
  }

  lemma ItemsStart(v: Json, i: nat, rest: string)
    requires Valid(v) && v.Arr? && i < |v.items|
    ensures var text := WriteItems(v, i, rest); |text| > 0 && text[0] != ']' && SkipSpace(text) == text
  {
    assert Valid(v.items[i]);
    WriteStarts(v.items[i], if i == |v.items| - 1 then rest else [',', ' '] + WriteItems(v, i + 1, rest));
  }

  lemma LastItem(text: string, item: Json, rest: string)
    requires Read(text) == Some((item, [']'] + rest))
    ensures ReadItems(text) == Some(([item], rest))
  {
    assert ([']'] + rest)[1..] == rest;
  }

  lemma NextItem(text: string, item: Json, next: string, others: seq<Json>, rest: string)
    requires Read(text) == Some((item, [',', ' '] + next))
    requires SkipSpace(next) == next && ReadItems(next) == Some((others, rest))
    ensures ReadItems(text) == Some(([item] + others, rest))
  {
    var more := [',', ' '] + next;
    assert more[1..] == [' '] + next && ([' '] + next)[1..] == next;
    assert SkipSpace(more[1..]) == next;
  }

  /** One item is read; those behind it have been. */
  lemma ItemIsRead(v: Json, i: nat, rest: string, more: string)
    requires Valid(v) && v.Arr? && i < |v.items|
    requires more == if i == |v.items| - 1 then [']'] + rest else [',', ' '] + WriteItems(v, i + 1, [']'] + rest)
    requires Read(Write(v.items[i], more)) == Some((v.items[i], more))
    requires i < |v.items| - 1 ==> ReadItems(WriteItems(v, i + 1, [']'] + rest)) == Some((v.items[i + 1..], rest))
    ensures ReadItems(WriteItems(v, i, [']'] + rest)) == Some((v.items[i..], rest))
  {
    var text := WriteItems(v, i, [']'] + rest);
    assert text == Write(v.items[i], more);
    if i == |v.items| - 1 {
      LastItem(text, v.items[i], rest);
      assert v.items[i..] == [v.items[i]];
    } else {
      ItemsStart(v, i + 1, [']'] + rest);
      NextItem(text, v.items[i], WriteItems(v, i + 1, [']'] + rest), v.items[i + 1..], rest);
      assert [v.items[i]] + v.items[i + 1..] == v.items[i..];
    }
  }

  lemma {:induction false} ItemsAreRead(v: Json, i: nat, rest: string)
    requires Valid(v) && v.Arr? && i < |v.items|
    ensures ReadItems(WriteItems(v, i, [']'] + rest)) == Some((v.items[i..], rest))
    decreases v, |v.items| - i
  {
    var more := if i == |v.items| - 1 then [']'] + rest else [',', ' '] + WriteItems(v, i + 1, [']'] + rest);
    assert Valid(v.items[i]);
    WrittenIsRead(v.items[i], more);
    if i < |v.items| - 1 {
      ItemsAreRead(v, i + 1, rest);
    }
    ItemIsRead(v, i, rest, more);
  }

  /** The text starts with a member's key, colon and value, followed by `more`. */
  predicate MemberAhead(text: string, key: string, value: Json, more: string) {
    && |text| > 0 && text[0] == '"'
    && var chars := ReadChars(text[1..]);
       && chars.Some? && chars.value.0 == key
       && var colon := SkipSpace(chars.value.1);
          |colon| > 0 && colon[0] == ':' && Read(SkipSpace(colon[1..])) == Some((value, more))
  }

  lemma MemberIsAhead(key: string, value: Json, more: string)
    requires Read(Write(value, more)) == Some((value, more))
    requires |Write(value, more)| > 0 && !IsSpace(Write(value, more)[0])
    ensures MemberAhead(WriteString(key, [':', ' '] + Write(value, more)), key, value, more)
  {
    var written := Write(value, more);
    CharsRead(key, [':', ' '] + written);
    SpacedValue(written);
    assert WriteString(key, [':', ' '] + written)[1..] == WriteChars(key, [':', ' '] + written);
  }

  lemma SpacedValue(written: string)
    requires |written| > 0 && !IsSpace(written[0])
    ensures
      var colon := [':', ' '] + written;
      SkipSpace(colon) == colon && SkipSpace(colon[1..]) == written
  {
    assert ([':', ' '] + written)[1..] == [' '] + written && ([' '] + written)[1..] == written;
  }

  lemma LastMember(text: string, key: string, value: Json, rest: string)
    requires MemberAhead(text, key, value, ['}'] + rest)
    ensures ReadMembers(text) == Some(([(key, value)], rest))
  {
    assert (['}'] + rest)[1..] == rest;
  }

  lemma NextMember(text: string, key: string, value: Json, next: string, others: seq<(string, Json)>, rest: string)
    requires MemberAhead(text, key, value, [',', ' '] + next)
    requires SkipSpace(next) == next && ReadMembers(next) == Some((others, rest))
    ensures ReadMembers(text) == Some(([(key, value)] + others, rest))
  {
    var more := [',', ' '] + next;
    assert more[1..] == [' '] + next && ([' '] + next)[1..] == next;
    assert SkipSpace(more[1..]) == next;
  }

  lemma MembersStart(v: Json, i: nat, rest: string)
    requires v.Obj? && i < |v.members|
    ensures var text := WriteMembers(v, i, rest); |text| > 0 && text[0] == '"' && SkipSpace(text) == text
  {
  }

  /** One member is read; those behind it have been. */
  lemma MemberIsRead(v: Json, i: nat, rest: string, more: string)
    requires v.Obj? && i < |v.members|
    requires more == if i == |v.members| - 1 then ['}'] + rest else [',', ' '] + WriteMembers(v, i + 1, ['}'] + rest)
    requires MemberAhead(WriteMembers(v, i, ['}'] + rest), v.members[i].0, v.members[i].1, more)
    requires i < |v.members| - 1 ==>
      ReadMembers(WriteMembers(v, i + 1, ['}'] + rest)) == Some((v.members[i + 1..], rest))
    ensures ReadMembers(WriteMembers(v, i, ['}'] + rest)) == Some((v.members[i..], rest))
  {
    var (key, value) := v.members[i];
    var text := WriteMembers(v, i, ['}'] + rest);
    if i == |v.members| - 1 {
      LastMember(text, key, value, rest);
      assert v.members[i..] == [(key, value)];
    } else {
      MembersStart(v, i + 1, ['}'] + rest);
      NextMember(text, key, value, WriteMembers(v, i + 1, ['}'] + rest), v.members[i + 1..], rest);
      assert [(key, value)] + v.members[i + 1..] == v.members[i..];
    }
  }

  lemma {:induction false} MembersAreRead(v: Json, i: nat, rest: string)
    requires Valid(v) && v.Obj? && i < |v.members|
    ensures ReadMembers(WriteMembers(v, i, ['}'] + rest)) == Some((v.members[i..], rest))
    decreases v, |v.members| - i
  {
    var (key, value) := v.members[i];
    var more := if i == |v.members| - 1 then ['}'] + rest else [',', ' '] + WriteMembers(v, i + 1, ['}'] + rest);
    assert Valid(v.members[i].1);
    WriteStarts(value, more);
    WrittenIsRead(value, more);
    MemberIsAhead(key, value, more);
    if i < |v.members| - 1 {
      MembersAreRead(v, i + 1, rest);
    }
    MemberIsRead(v, i, rest, more);
  }

  /** json.loads undoes json.dumps on every value. */
  lemma LoadsUndoesDumps(v: Json)
    requires Valid(v)
    ensures Loads(Dumps(v)) == Some(v)
  {
    WriteStarts(v, []);
    WrittenIsRead(v, []);
  }
}
