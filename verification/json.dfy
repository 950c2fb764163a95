/** JSON as the stream uses it: `json.dumps` of an object with one string member, and reading such an object. String
    escapes are those of section 7 of RFC 8259. */
module Json {
  import opened Base

  function HexDigit(d: nat): (c: char)
    requires d < 16
  {
    if d < 10 then ('0' as int + d) as char else ('a' as int + d - 10) as char
  }

  function HexValue(c: char): (d: Option<nat>)
    ensures d.Some? ==> d.value < 16
  {
    if '0' <= c <= '9' then Some(c as int - '0' as int)
    else if 'a' <= c <= 'f' then Some(c as int - 'a' as int + 10)
    else if 'A' <= c <= 'F' then Some(c as int - 'A' as int + 10)
    else None
  }

  /** `\uXXXX` for one UTF-16 code unit. */
  function EscapeUnit(u: nat): (s: string)
    requires u < 0x10000
    ensures |s| == 6
  {
    ['\\', 'u', HexDigit(u / 4096), HexDigit(u / 256 % 16), HexDigit(u / 16 % 16), HexDigit(u % 16)]
  }

  /** One character as `json.dumps` writes it, with `ensure_ascii`. */
  function Escape(c: char): (s: string)
  {
    var k := c as int;
    if c == '"' then "\\\""
    else if c == '\\' then "\\\\"
    else if k == 0x0A then "\\n"
    else if k == 0x0D then "\\r"
    else if k == 0x09 then "\\t"
    else if k == 0x0C then "\\f"
    else if k == 0x08 then "\\b"
    else if 0x20 <= k <= 0x7E then [c]
    else if k < 0x10000 then EscapeUnit(k)
    else EscapeUnit(0xD800 + (k - 0x10000) / 0x400) + EscapeUnit(0xDC00 + (k - 0x10000) % 0x400)
  }

  function EscapeAll(text: string): (s: string)
  {
    if text == "" then "" else Escape(text[0]) + EscapeAll(text[1..])
  }

  /** `json.dumps({key: text})`. */
  function Dumps(key: string, text: string): (s: string)
  {
    "{\"" + EscapeAll(key) + "\": \"" + EscapeAll(text) + "\"}"
  }

  // ---- Reading ----

  function ReadUnit(s: string): (u: Option<nat>)
    ensures u.Some? ==> u.value < 0x10000 && |s| >= 6
  {
    if |s| < 6 || s[0] != '\\' || s[1] != 'u' then None
    else
      match (HexValue(s[2]), HexValue(s[3]), HexValue(s[4]), HexValue(s[5]))
      case (Some(a), Some(b), Some(c), Some(d)) => Some(4096 * a + 256 * b + 16 * c + d)
      case _ => None
  }

  /** The first character of the inside of a string literal, and the length of what stands for it. */
  function ReadChar(s: string): (r: Option<(char, nat)>)
    ensures r.Some? ==> 0 < r.value.1 <= |s|
  {
    if s == "" || s[0] == '"' || s[0] as int < 0x20 then None
    else if s[0] != '\\' then Some((s[0], 1))
    else if |s| < 2 then None
    else
      match s[1]
      case '"' => Some(('"', 2))
      case '\\' => Some(('\\', 2))
      case '/' => Some(('/', 2))
      case 'b' => Some((0x08 as char, 2))
      case 'f' => Some((0x0C as char, 2))
      case 'n' => Some((0x0A as char, 2))
      case 'r' => Some((0x0D as char, 2))
      case 't' => Some((0x09 as char, 2))
      case _ =>
        match ReadUnit(s)
        case None => None
        case Some(u) =>
          if u < 0xD800 || 0xE000 <= u then Some((u as char, 6))
          else if u < 0xDC00 then
            match ReadUnit(s[6..])
            case Some(v) =>
              if 0xDC00 <= v < 0xE000 then Some(((0x10000 + (u - 0xD800) * 0x400 + (v - 0xDC00)) as char, 12)) else None
            case None => None
          else None
  }

  /** A string literal from behind its opening quote: its text, and what follows its closing quote. */
  function ReadString(s: string): (r: Option<(string, string)>)
    ensures r.Some? ==> |r.value.1| < |s|
    decreases |s|
  {
    if s != "" && s[0] == '"' then Some(("", s[1..]))
    else
      match ReadChar(s)
      case None => None
      case Some((c, n)) =>
        match ReadString(s[n..])
        case None => None
        case Some((text, rest)) => Some(([c] + text, rest))
  }

  predicate StartsWith(s: string, prefix: string)
  {
    prefix <= s
  }

  /** An object with one string member, laid out as `json.dumps` does. */
  function ReadMember(s: string): (r: Option<(string, string)>)
  {
    if !StartsWith(s, "{\"") then None
    else
      match ReadString(s[2..])
      case None => None
      case Some((key, afterKey)) =>
        if !StartsWith(afterKey, ": \"") then None
        else
          match ReadString(afterKey[3..])
          case None => None
          case Some((text, rest)) => if rest == "}" then Some((key, text)) else None
  }

  datatype Value = Text(text: string) | Object(members: map<string, Value>) | Null | Other | SyntaxError

  /** `JSON.parse`: on objects as above it is given; `other` is what it makes of any other input. */
  function JsonParse(s: string, other: string -> Value): (v: Value)
  {
    match ReadMember(s)
    case Some((key, text)) => Object(map[key := Text(text)])
    case None => other(s)
  }

  // ---- What was written is read back ----

  lemma HexDigits(u: nat)
    requires u < 0x10000
    ensures u / 4096 < 16 && u == 4096 * (u / 4096) + 256 * (u / 256 % 16) + 16 * (u / 16 % 16) + u % 16
  {
    var v := u / 16;
    var w := v / 16;
    assert u / 256 == w && u / 4096 == w / 16;
  }

  lemma UnitRoundTrip(u: nat, rest: string)
    requires u < 0x10000
    ensures ReadUnit(EscapeUnit(u) + rest) == Some(u)
  {
    HexDigits(u);
  }

  predicate HasShortEscape(c: char)
  {
    c == '"' || c == '\\' || c as int in {0x08, 0x09, 0x0A, 0x0C, 0x0D} || 0x20 <= c as int <= 0x7E
  }

  lemma ShortRoundTrip(c: char, rest: string)
    requires HasShortEscape(c)
    ensures ReadChar(Escape(c) + rest) == Some((c, |Escape(c)|))
  {
    var s := Escape(c) + rest;
    if |Escape(c)| == 2 {
      assert s[0] == '\\' && s[1] == Escape(c)[1];
    } else {
      assert s[0] == c;
    }
  }

  lemma UnitIsChar(c: char, rest: string)
    requires !HasShortEscape(c) && c as int < 0x10000
    ensures ReadChar(Escape(c) + rest) == Some((c, 6))
  {
    var s := Escape(c) + rest;
    UnitRoundTrip(c as int, rest);
    assert s[0] == '\\' && s[1] == 'u';
  }

  lemma PairIsRead(s: string, hi: nat, lo: nat)
    requires |s| >= 12 && s[0] == '\\' && s[1] == 'u'
    requires 0xD800 <= hi < 0xDC00 && ReadUnit(s) == Some(hi)
    requires 0xDC00 <= lo < 0xE000 && ReadUnit(s[6..]) == Some(lo)
    ensures ReadChar(s) == Some(((0x10000 + (hi - 0xD800) * 0x400 + (lo - 0xDC00)) as char, 12))
  {
  }

  lemma PairIsChar(c: char, rest: string)
    requires 0x10000 <= c as int
    ensures ReadChar(Escape(c) + rest) == Some((c, 12))
  {
    var k := c as int - 0x10000;
    var hi, lo := 0xD800 + k / 0x400, 0xDC00 + k % 0x400;
    var tail := EscapeUnit(lo) + rest;
    assert Escape(c) + rest == EscapeUnit(hi) + tail;
    UnitRoundTrip(hi, tail);
    UnitRoundTrip(lo, rest);
    assert (EscapeUnit(hi) + tail)[6..] == tail;
    PairIsRead(EscapeUnit(hi) + tail, hi, lo);
  }

  lemma CharRoundTrip(c: char, rest: string)
    ensures ReadChar(Escape(c) + rest) == Some((c, |Escape(c)|))
    ensures Escape(c) != "" && Escape(c)[0] != '"'
  {
    if HasShortEscape(c) {
      ShortRoundTrip(c, rest);
    } else if c as int < 0x10000 {
      UnitIsChar(c, rest);
    } else {
      PairIsChar(c, rest);
    }
  }

  lemma {:induction false} StringRoundTrip(text: string, rest: string)
    ensures ReadString(EscapeAll(text) + "\"" + rest) == Some((text, rest))
  {
    var s := EscapeAll(text) + "\"" + rest;
    if text == "" {
      assert s == "\"" + rest;
    } else {
      var tail := EscapeAll(text[1..]) + "\"" + rest;
      assert s == Escape(text[0]) + tail;
      CharRoundTrip(text[0], tail);
      StringRoundTrip(text[1..], rest);
      assert s[|Escape(text[0])|..] == tail;
      assert [text[0]] + text[1..] == text;
    }
  }

  lemma MemberRoundTrip(s: string, afterKey: string, key: string, text: string)
    requires |s| >= 2 && s[..2] == "{\"" && ReadString(s[2..]) == Some((key, afterKey))
    requires |afterKey| >= 3 && afterKey[..3] == ": \"" && ReadString(afterKey[3..]) == Some((text, "}"))
    ensures ReadMember(s) == Some((key, text))
  {
  }

  lemma Layout(a: string, b: string)
    ensures
      var afterKey := ": \"" + b + "\"}";
      var s := "{\"" + a + "\": \"" + b + "\"}";
      && s[..2] == "{\"" && s[2..] == a + "\"" + afterKey
      && afterKey[..3] == ": \"" && afterKey[3..] == b + "\"" + "}"
  {
  }

  /** The round trip, for every key and every text. */
  lemma DumpsRoundTrip(key: string, text: string, other: string -> Value)
    ensures JsonParse(Dumps(key, text), other) == Object(map[key := Text(text)])
  {
    var afterKey := ": \"" + EscapeAll(text) + "\"}";
    Layout(EscapeAll(key), EscapeAll(text));
    StringRoundTrip(key, afterKey);
    StringRoundTrip(text, "}");
    MemberRoundTrip(Dumps(key, text), afterKey, key, text);
  }

  /** Printable ASCII other than quotes and backslashes is written as it is. */
  lemma {:induction false} PlainIsItself(text: string)
    requires forall i | 0 <= i < |text| :: ' ' <= text[i] <= '~' && text[i] != '"' && text[i] != '\\'
    ensures EscapeAll(text) == text
  {
    if text != "" {
      PlainIsItself(text[1..]);
    }
  }

  predicate Printable(s: string)
  {
    forall i :: 0 <= i < |s| ==> ' ' <= s[i] <= '~'
  }

  lemma UnitIsPrintable(u: nat)
    requires u < 0x10000
    ensures Printable(EscapeUnit(u))
  {
  }

  lemma EscapeIsPrintable(c: char)
    ensures Printable(Escape(c))
  {
    if !HasShortEscape(c) {
      var k := c as int;
      if k < 0x10000 {
        UnitIsPrintable(k);
      } else {
        UnitIsPrintable(0xD800 + (k - 0x10000) / 0x400);
        UnitIsPrintable(0xDC00 + (k - 0x10000) % 0x400);
      }
    }
  }

  lemma {:induction false} EscapeAllIsPrintable(text: string)
    ensures Printable(EscapeAll(text))
  {
    if text != "" {
      EscapeIsPrintable(text[0]);
      EscapeAllIsPrintable(text[1..]);
    }
  }

  /** What is written fits one line of an event stream, and begins with a brace. */
  lemma DumpsFitsOneLine(key: string, text: string)
    ensures Printable(Dumps(key, text)) && Dumps(key, text)[0] == '{'
  {
    EscapeAllIsPrintable(key);
    EscapeAllIsPrintable(text);
  }
}
