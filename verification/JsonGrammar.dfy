/**
 What json.dumps writes, put together from the texts of its parts: printable ASCII, with the separators and escapes of
 the default settings. The writer that carries the rest of its text along writes exactly this.
 */
module JsonGrammar {
  import opened Domain
  import opened JsonText

  /******* Strings *******/

  const HEX_DIGITS := "0123456789abcdef"

  /** The four hexadecimal digits of a code unit. */
  ghost predicate HexOf(text: string, n: nat) {
    && |text| == 4
    && exists a, b, c, d | 0 <= a < 16 && 0 <= b < 16 && 0 <= c < 16 && 0 <= d < 16 ::
         && n == ((a * 16 + b) * 16 + c) * 16 + d
         && text == [HEX_DIGITS[a], HEX_DIGITS[b], HEX_DIGITS[c], HEX_DIGITS[d]]
  }

  lemma HexDigitIs(n: nat)
    requires n < 16
    ensures HexDigit(n) == HEX_DIGITS[n]
  {
  }

  lemma Hex4Is(n: nat)
    requires n < 0x10000
    ensures HexOf(Hex4(n), n)
  {
    var q1 := n / 16;
    var q2 := q1 / 16;
    var a, b, c, d := q2 / 16, q2 % 16, q1 % 16, n % 16;
    HexDigitIs(a);
    HexDigitIs(b);
    HexDigitIs(c);
    HexDigitIs(d);
    assert n == ((a * 16 + b) * 16 + c) * 16 + d;
    assert Hex4(n) == [HEX_DIGITS[a], HEX_DIGITS[b], HEX_DIGITS[c], HEX_DIGITS[d]];
  }

  /** The text is a \u escape of the code unit. */
  ghost predicate EscapeOf(text: string, n: nat) {
    |text| == 6 && text[..2] == "\\u" && HexOf(text[2..], n)
  }

  lemma UnicodeIs(n: nat)
    requires n < 0x10000
    ensures EscapeOf(Unicode(n), n)
  {
    Hex4Is(n);
    assert Unicode(n)[2..] == Hex4(n);
  }

  /** The text is the escapes of the two surrogates of a character beyond the sixteen-bit ones. */
  ghost predicate PairOf(text: string, n: nat) {
    && |text| == 12
    && exists high: nat, low: nat ::
         && 0xD800 <= high < 0xDC00 <= low < 0xE000 && n == 0x10000 + (high - 0xD800) * 0x400 + (low - 0xDC00)
         && EscapeOf(text[..6], high) && EscapeOf(text[6..], low)
  }

  lemma SurrogatesAre(n: nat)
    requires 0x10000 <= n < 0x110000
    ensures PairOf(Unicode(HighSurrogate(n)) + Unicode(LowSurrogate(n)), n)
  {
    var high, low := HighSurrogate(n), LowSurrogate(n);
    var text := Unicode(high) + Unicode(low);
    UnicodeIs(high);
    UnicodeIs(low);
    assert text[..6] == Unicode(high) && text[6..] == Unicode(low);
    assert n == 0x10000 + (high - 0xD800) * 0x400 + (low - 0xDC00);
  }

  /**
   How a character is written: by its name if it has one, as it is if it is printable ASCII, and else by the number of
   its code unit, or of its two surrogates in UTF-16.
   */
  lemma EscapedIs(c: char)
    ensures
      var n, text := c as int, Escaped(c);
      match c
      case '"' => text == "\\\""
      case '\\' => text == "\\\\"
      case '\n' => text == "\\n"
      case '\r' => text == "\\r"
      case '\t' => text == "\\t"
      case _ =>
        if n == 8 then text == "\\b"
        else if n == 12 then text == "\\f"
        else if 0x20 <= n <= 0x7E then text == [c]
        else if n < 0x10000 then EscapeOf(text, n)
        else PairOf(text, n)
  {
    var n := c as nat;
    if n < 0x10000 {
      UnicodeIs(n);
    } else {
      SurrogatesAre(n);
    }
  }

  /******* Values *******/

  function Quoted(s: string): string {
    "\"" + Characters(s) + "\""
  }

  function Characters(s: string): string {
    if |s| == 0 then "" else Escaped(s[0]) + Characters(s[1..])
  }

  /** The text of a value from the texts of its parts. */
  function Text(v: Json): string
    decreases v, Width(v)
  {
    match v
    case Null => "null"
    case Bool(b) => if b then "true" else "false"
    case Number(text) => text
    case Str(s) => Quoted(s)
    case Arr(items) => if |items| == 0 then "[]" else "[" + ItemsText(v, 0) + "]"
    case Obj(members) => if |members| == 0 then "{}" else "{" + MembersText(v, 0) + "}"
  }

  /** The items from the i-th on, with a comma and a space between them. */
  function ItemsText(v: Json, i: nat): string
    requires v.Arr? && i < |v.items|
    decreases v, |v.items| - i
  {
    Text(v.items[i]) + if i == |v.items| - 1 then "" else ", " + ItemsText(v, i + 1)
  }

  /** The members from the i-th on, each a key, a colon and a space, and a value. */
  function MembersText(v: Json, i: nat): string
    requires v.Obj? && i < |v.members|
    decreases v, |v.members| - i
  {
    Quoted(v.members[i].0) + ": " + Text(v.members[i].1)
    + if i == |v.members| - 1 then "" else ", " + MembersText(v, i + 1)
  }

  lemma {:induction false} CharsAreText(s: string, rest: string)
    ensures WriteChars(s, rest) == Characters(s) + "\"" + rest
  {
    if |s| > 0 {
      CharsAreText(s[1..], rest);
    }
  }

  lemma StringIsText(s: string, rest: string)
    ensures WriteString(s, rest) == Quoted(s) + rest
  {
    CharsAreText(s, rest);
  }

  lemma {:induction false} WrittenIsText(v: Json, rest: string)
    ensures Write(v, rest) == Text(v) + rest
    decreases v, Width(v)
  {
    match v
    case Str(s) => StringIsText(s, rest);
    case Arr(items) =>
      if |items| > 0 {
        ItemsAreText(v, 0, [']'] + rest);
        assert Write(v, rest) == ['['] + (ItemsText(v, 0) + ([']'] + rest));
      }
    case Obj(members) =>
      if |members| > 0 {
        MembersAreText(v, 0, ['}'] + rest);
        assert Write(v, rest) == ['{'] + (MembersText(v, 0) + (['}'] + rest));
      }
    case _ =>
  }

  lemma {:induction false} ItemsAreText(v: Json, i: nat, rest: string)
    requires v.Arr? && i < |v.items|
    ensures WriteItems(v, i, rest) == ItemsText(v, i) + rest
    decreases v, |v.items| - i
  {
    if i == |v.items| - 1 {
      WrittenIsText(v.items[i], rest);
    } else {
      ItemsAreText(v, i + 1, rest);
      var more := [',', ' '] + WriteItems(v, i + 1, rest);
      WrittenIsText(v.items[i], more);
      assert Text(v.items[i]) + more == Text(v.items[i]) + (", " + ItemsText(v, i + 1)) + rest;
    }
  }

  lemma MemberJoins(key: string, value: string, tail: string, rest: string)
    ensures key + ([':', ' '] + (value + (tail + rest))) == key + ": " + value + tail + rest
  {
    assert key + ([':', ' '] + (value + (tail + rest))) == key + ": " + (value + (tail + rest));
    assert key + ": " + (value + (tail + rest)) == (key + ": " + value) + (tail + rest);
  }

  lemma {:induction false} MembersAreText(v: Json, i: nat, rest: string)
    requires v.Obj? && i < |v.members|
    ensures WriteMembers(v, i, rest) == MembersText(v, i) + rest
    decreases v, |v.members| - i
  {
    var (key, value) := v.members[i];
    var tail := if i == |v.members| - 1 then "" else ", " + MembersText(v, i + 1);
    if i < |v.members| - 1 {
      MembersAreText(v, i + 1, rest);
      assert [',', ' '] + (MembersText(v, i + 1) + rest) == tail + rest;
    } else {
      assert tail + rest == rest;
    }
    WrittenIsText(value, tail + rest);
    StringIsText(key, [':', ' '] + Write(value, tail + rest));
    MemberJoins(Quoted(key), Text(value), tail, rest);
  }

  /** json.dumps writes the text of its value. */
  lemma DumpsIsText(v: Json)
    ensures Dumps(v) == Text(v)
  {
    WrittenIsText(v, []);
  }

  /******* ASCII *******/

  predicate Printable(text: string) {
    forall i | 0 <= i < |text| :: ' ' <= text[i] <= '~'
  }

  lemma {:induction false} CharactersArePrintable(s: string)
    ensures Printable(Characters(s))
  {
    if |s| > 0 {
      CharactersArePrintable(s[1..]);
      EscapedIsPrintable(s[0]);
    }
  }

  lemma EscapedIsPrintable(c: char)
    ensures Printable(Escaped(c))
  {
  }

  lemma {:induction false} NumberIsPrintable(text: string)
    requires NumberRun(text) == |text|
    ensures Printable(text)
  {
    if |text| > 0 {
      NumberIsPrintable(text[1..]);
      assert forall i | 0 < i < |text| :: text[i] == text[1..][i - 1];
    }
  }

  lemma PrintableJoins(a: string, b: string)
    requires Printable(a) && Printable(b)
    ensures Printable(a + b)
  {
  }

  lemma QuotedIsPrintable(s: string)
    ensures Printable(Quoted(s))
  {
    CharactersArePrintable(s);
    PrintableJoins("\"", Characters(s));
    PrintableJoins("\"" + Characters(s), "\"");
  }

  /** json.dumps writes printable ASCII only, whatever its strings hold. */
  lemma {:induction false} TextIsPrintable(v: Json)
    requires Valid(v)
    ensures Printable(Text(v))
    decreases v, Width(v)
  {
    match v
    case Number(text) =>
      if NumberText(text) {
        NumberIsPrintable(text);
      }
    case Str(s) => QuotedIsPrintable(s);
    case Arr(items) =>
      if |items| > 0 {
        ItemsArePrintable(v, 0);
        PrintableJoins("[", ItemsText(v, 0));
        PrintableJoins("[" + ItemsText(v, 0), "]");
      }
    case Obj(members) =>
      if |members| > 0 {
        MembersArePrintable(v, 0);
        PrintableJoins("{", MembersText(v, 0));
        PrintableJoins("{" + MembersText(v, 0), "}");
      }
    case _ =>
  }

  lemma {:induction false} ItemsArePrintable(v: Json, i: nat)
    requires Valid(v) && v.Arr? && i < |v.items|
    ensures Printable(ItemsText(v, i))
    decreases v, |v.items| - i
  {
    TextIsPrintable(v.items[i]);
    if i < |v.items| - 1 {
      ItemsArePrintable(v, i + 1);
      PrintableJoins(", ", ItemsText(v, i + 1));
      PrintableJoins(Text(v.items[i]), ", " + ItemsText(v, i + 1));
    }
  }

  lemma {:induction false} MembersArePrintable(v: Json, i: nat)
    requires Valid(v) && v.Obj? && i < |v.members|
    ensures Printable(MembersText(v, i))
    decreases v, |v.members| - i
  {
    var key, value := Quoted(v.members[i].0), Text(v.members[i].1);
    QuotedIsPrintable(v.members[i].0);
    TextIsPrintable(v.members[i].1);
    PrintableJoins(key, ": ");
    PrintableJoins(key + ": ", value);
    if i < |v.members| - 1 {
      MembersArePrintable(v, i + 1);
      PrintableJoins(", ", MembersText(v, i + 1));
      PrintableJoins(key + ": " + value, ", " + MembersText(v, i + 1));
    }
  }
}
