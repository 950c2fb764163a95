/** Unpadded base64url (section 5 of RFC 4648) as the login uses it: the code verifier and its challenge are encoded
    with it, and the claims of a token are decoded from it. */
module Base64Url {
  import opened Base

  type Byte = b: nat | b < 256

  type Sextet = d: nat | d < 64

  /** A binary string: one character for each byte. */
  predicate IsBinary(s: string)
  {
    forall i :: 0 <= i < |s| ==> s[i] as int < 256
  }

  // ---- btoa and atob ----

  function Letter(d: Sextet): (c: char)
  {
    if d < 26 then ('A' as int + d) as char
    else if d < 52 then ('a' as int + (d - 26)) as char
    else if d < 62 then ('0' as int + (d - 52)) as char
    else if d == 62 then '+'
    else '/'
  }

  function LetterValue(c: char): (d: Option<Sextet>)
  {
    if 'A' <= c <= 'Z' then Some(c as int - 'A' as int)
    else if 'a' <= c <= 'z' then Some(c as int - 'a' as int + 26)
    else if '0' <= c <= '9' then Some(c as int - '0' as int + 52)
    else if c == '+' then Some(62)
    else if c == '/' then Some(63)
    else None
  }

  predicate IsLetter(c: char)
  {
    LetterValue(c).Some?
  }

  predicate AllLetters(s: string)
  {
    forall i :: 0 <= i < |s| ==> IsLetter(s[i])
  }

  function Equals(n: nat): (s: string)
    ensures |s| == n && forall i :: 0 <= i < n ==> s[i] == '='
  {
    seq(n, i => '=')
  }

  // The four sextets of three bytes.

  function First(a: Byte): (d: Sextet)
  {
    a / 4
  }

  function Second(a: Byte, b: Byte): (d: Sextet)
  {
    a % 4 * 16 + b / 16
  }

  function Third(b: Byte, c: Byte): (d: Sextet)
  {
    b % 16 * 4 + c / 64
  }

  function Fourth(c: Byte): (d: Sextet)
  {
    c % 64
  }

  /** The letters for up to three bytes. */
  function Letters(g: string): (r: string)
    requires |g| <= 3 && IsBinary(g)
    ensures AllLetters(r)
    ensures |r| == if g == "" then 0 else |g| + 1
  {
    if g == "" then ""
    else
      var a := g[0] as int;
      if |g| == 1 then [Letter(First(a)), Letter(Second(a, 0))]
      else
        var b := g[1] as int;
        if |g| == 2 then [Letter(First(a)), Letter(Second(a, b)), Letter(Third(b, 0))]
        else
          var c := g[2] as int;
          [Letter(First(a)), Letter(Second(a, b)), Letter(Third(b, c)), Letter(Fourth(c))]
  }

  /** `btoa`, section 4 of RFC 4648. */
  function Btoa(s: string): (r: string)
    requires IsBinary(s)
  {
    if s == "" then ""
    else if |s| <= 3 then Letters(s) + Equals(3 - |s|)
    else Letters(s[..3]) + Btoa(s[3..])
  }

  predicate IsWhitespace(c: char)
  {
    c as int in {0x09, 0x0A, 0x0C, 0x0D, 0x20}
  }

  function RemoveWhitespace(s: string): (r: string)
  {
    if s == "" then ""
    else if IsWhitespace(s[0]) then RemoveWhitespace(s[1..])
    else [s[0]] + RemoveWhitespace(s[1..])
  }

  /** One or two `=` at the end go when the length is a multiple of four. */
  function DropPadding(s: string): (r: string)
  {
    if |s| % 4 != 0 || s == "" || s[|s| - 1] != '=' then s
    else if s[|s| - 2] == '=' then s[..|s| - 2]
    else s[..|s| - 1]
  }

  /** The bytes of up to four letters; bits that do not fill a byte are dropped. */
  function Bytes(g: string): (r: Option<string>)
    requires |g| <= 4
    ensures r.Some? ==> IsBinary(r.value)
  {
    if g == "" then Some("")
    else if |g| == 1 || !AllLetters(g) then None
    else
      var a, b := LetterValue(g[0]).value, LetterValue(g[1]).value;
      var first := (a * 4 + b / 16) as char;
      if |g| == 2 then Some([first])
      else
        var c := LetterValue(g[2]).value;
        var second := (b % 16 * 16 + c / 4) as char;
        if |g| == 3 then Some([first, second])
        else Some([first, second, (c % 4 * 64 + LetterValue(g[3]).value) as char])
  }

  function DecodeGroups(s: string): (r: Option<string>)
    ensures r.Some? ==> IsBinary(r.value)
  {
    if |s| <= 4 then Bytes(s)
    else
      match (Bytes(s[..4]), DecodeGroups(s[4..]))
      case (Some(first), Some(rest)) => Some(first + rest)
      case _ => None
  }

  /** `atob`: None where it throws. */
  function Atob(s: string): (r: Option<string>)
  {
    DecodeGroups(DropPadding(RemoveWhitespace(s)))
  }

  // ---- The two functions of the login ----

  function Replace(s: string, from: char, to: char): (r: string)
    ensures |r| == |s| && forall i :: 0 <= i < |s| ==> r[i] == if s[i] == from then to else s[i]
  {
    seq(|s|, i requires 0 <= i < |s| => if s[i] == from then to else s[i])
  }

  function ToUrl(s: string): (r: string)
  {
    Replace(Replace(s, '+', '-'), '/', '_')
  }

  function FromUrl(s: string): (r: string)
  {
    Replace(Replace(s, '-', '+'), '_', '/')
  }

  /** `replace(/=+$/, '')`. */
  function StripEquals(s: string): (r: string)
  {
    if s != "" && s[|s| - 1] == '=' then StripEquals(s[..|s| - 1]) else s
  }

  function BinaryOf(bytes: seq<Byte>): (s: string)
    ensures IsBinary(s) && |s| == |bytes|
  {
    if bytes == [] then "" else BinaryOf(bytes[..|bytes| - 1]) + [bytes[|bytes| - 1] as char]
  }

  function Encode(bytes: seq<Byte>): (s: string)
  {
    StripEquals(ToUrl(Btoa(BinaryOf(bytes))))
  }

  /** How many characters are missing to a multiple of four. */
  function Missing(n: nat): (m: nat)
    ensures m < 4 && (n + m) % 4 == 0
  {
    (4 - n % 4) % 4
  }

  /** The binary string that `decodeClaims` reads JSON from. */
  function Decode(part: string): (r: Option<string>)
  {
    var padded := FromUrl(part);
    Atob(padded + Equals(Missing(|padded|)))
  }

  method Base64UrlEncode(bytes: seq<Byte>) returns (s: string)
    ensures s == Encode(bytes)
  {
    var binary := "";
    for i := 0 to |bytes|
      invariant binary == BinaryOf(bytes[..i])
    {
      assert bytes[..i + 1][..i] == bytes[..i];
      binary := binary + [bytes[i] as char];
    }
    assert bytes[..|bytes|] == bytes;
    s := StripEquals(ToUrl(Btoa(binary)));
  }

  // ---- Decoding undoes encoding ----

  /** Base64 without its padding. */
  function Unpadded(s: string): (r: string)
    requires IsBinary(s)
    ensures AllLetters(r)
    ensures 4 * |s| <= 3 * |r| <= 4 * |s| + 2
  {
    if |s| <= 3 then Letters(s) else Letters(s[..3]) + Unpadded(s[3..])
  }

  lemma MissingIsPeriodic(n: nat)
    ensures Missing(4 + n) == Missing(n)
  {
  }

  lemma PadStep(h: string, u: string)
    requires |h| == 4
    ensures h + (u + Equals(Missing(|u|))) == (h + u) + Equals(Missing(|h + u|))
  {
    MissingIsPeriodic(|u|);
  }

  lemma {:induction false} BtoaPads(s: string)
    requires IsBinary(s)
    ensures Btoa(s) == Unpadded(s) + Equals(Missing(|Unpadded(s)|))
  {
    if |s| > 3 {
      BtoaPads(s[3..]);
      PadStep(Letters(s[..3]), Unpadded(s[3..]));
    } else {
      assert s == "" || Missing(|s| + 1) == 3 - |s|;
    }
  }

  lemma BytesOfSextets(a: Byte, b: Byte, c: Byte)
    ensures First(a) * 4 + Second(a, b) / 16 == a
    ensures Second(a, b) % 16 * 16 + Third(b, c) / 4 == b
    ensures Third(b, c) % 4 * 64 + Fourth(c) == c
  {
  }

  lemma LetterRoundTrip(d: Sextet)
    ensures LetterValue(Letter(d)) == Some(d)
  {
  }

  lemma BytesOfLetters(p: Sextet, q: Sextet, r: Sextet, t: Sextet)
    ensures Bytes([Letter(p), Letter(q)]) == Some([(p * 4 + q / 16) as char])
    ensures Bytes([Letter(p), Letter(q), Letter(r)]) == Some([(p * 4 + q / 16) as char, (q % 16 * 16 + r / 4) as char])
    ensures Bytes([Letter(p), Letter(q), Letter(r), Letter(t)])
      == Some([(p * 4 + q / 16) as char, (q % 16 * 16 + r / 4) as char, (r % 4 * 64 + t) as char])
  {
    LetterRoundTrip(p);
    LetterRoundTrip(q);
    LetterRoundTrip(r);
    LetterRoundTrip(t);
  }

  lemma OneByte(a: Byte)
    ensures Bytes(Letters([a as char])) == Some([a as char])
  {
    BytesOfSextets(a, 0, 0);
    BytesOfLetters(First(a), Second(a, 0), 0, 0);
  }

  lemma TwoBytes(a: Byte, b: Byte)
    ensures Bytes(Letters([a as char, b as char])) == Some([a as char, b as char])
  {
    BytesOfSextets(a, b, 0);
    BytesOfLetters(First(a), Second(a, b), Third(b, 0), 0);
  }

  lemma ThreeBytes(a: Byte, b: Byte, c: Byte)
    ensures Bytes(Letters([a as char, b as char, c as char])) == Some([a as char, b as char, c as char])
  {
    BytesOfSextets(a, b, c);
    var p, q, r, t := First(a), Second(a, b), Third(b, c), Fourth(c);
    BytesOfLetters(p, q, r, t);
    assert Letters([a as char, b as char, c as char]) == [Letter(p), Letter(q), Letter(r), Letter(t)];
  }

  lemma LettersRoundTrip(g: string)
    requires |g| <= 3 && IsBinary(g)
    ensures Bytes(Letters(g)) == Some(g)
  {
    if |g| == 1 {
      OneByte(g[0] as int);
      assert g == [g[0]];
    } else if |g| == 2 {
      TwoBytes(g[0] as int, g[1] as int);
      assert g == [g[0], g[1]];
    } else if |g| == 3 {
      ThreeBytes(g[0] as int, g[1] as int, g[2] as int);
      assert g == [g[0], g[1], g[2]];
    }
  }

  lemma {:induction false} GroupsRoundTrip(s: string)
    requires IsBinary(s)
    ensures DecodeGroups(Unpadded(s)) == Some(s)
  {
    if |s| <= 3 {
      LettersRoundTrip(s);
    } else {
      LettersRoundTrip(s[..3]);
      GroupsRoundTrip(s[3..]);
      var u := Letters(s[..3]) + Unpadded(s[3..]);
      assert u[..4] == Letters(s[..3]) && u[4..] == Unpadded(s[3..]);
      assert s[..3] + s[3..] == s;
    }
  }

  lemma {:induction false} NoWhitespace(s: string)
    requires forall i :: 0 <= i < |s| ==> !IsWhitespace(s[i])
    ensures RemoveWhitespace(s) == s
  {
    if s != "" {
      NoWhitespace(s[1..]);
    }
  }

  lemma {:induction false} StripsPadding(s: string, n: nat)
    requires AllLetters(FromUrl(s))
    ensures StripEquals(s + Equals(n)) == s
  {
    if n > 0 {
      assert (s + Equals(n))[..|s| + n - 1] == s + Equals(n - 1);
      StripsPadding(s, n - 1);
    } else {
      assert s + Equals(0) == s;
      if s != "" {
        assert IsLetter(FromUrl(s)[|s| - 1]);
      }
    }
  }

  lemma AlphabetRoundTrip(s: string)
    requires AllLetters(s)
    ensures FromUrl(ToUrl(s)) == s
  {
    forall i | 0 <= i < |s|
      ensures FromUrl(ToUrl(s))[i] == s[i]
    {
      assert IsLetter(s[i]);
    }
  }

  lemma EncodeIsUnpadded(bytes: seq<Byte>)
    ensures Encode(bytes) == ToUrl(Unpadded(BinaryOf(bytes)))
  {
    var u := Unpadded(BinaryOf(bytes));
    var n := Missing(|u|);
    BtoaPads(BinaryOf(bytes));
    assert ToUrl(u + Equals(n)) == ToUrl(u) + Equals(n);
    AlphabetRoundTrip(u);
    StripsPadding(ToUrl(u), n);
  }

  lemma LettersAreNotBlank(u: string, n: nat)
    requires AllLetters(u)
    ensures RemoveWhitespace(u + Equals(n)) == u + Equals(n)
  {
    forall i | 0 <= i < |u| + n
      ensures !IsWhitespace((u + Equals(n))[i])
    {
      if i < |u| {
        assert IsLetter(u[i]);
      }
    }
    NoWhitespace(u + Equals(n));
  }

  lemma DropsEquals(u: string, n: nat)
    requires n <= 2 && (|u| + n) % 4 == 0 && (u != "" ==> u[|u| - 1] != '=')
    ensures DropPadding(u + Equals(n)) == u
  {
    var s := u + Equals(n);
    assert s[..|u|] == u;
    if n == 1 {
      assert s[|s| - 2] == u[|u| - 1];
    }
  }

  lemma PaddingIsDropped(u: string)
    requires AllLetters(u) && |u| % 4 != 1
    ensures DropPadding(u + Equals(Missing(|u|))) == u
  {
    if u != "" {
      assert IsLetter(u[|u| - 1]);
    }
    DropsEquals(u, Missing(|u|));
  }

  lemma AtobUndoesPadding(u: string)
    requires AllLetters(u) && |u| % 4 != 1
    ensures Atob(u + Equals(Missing(|u|))) == DecodeGroups(u)
  {
    LettersAreNotBlank(u, Missing(|u|));
    PaddingIsDropped(u);
  }

  lemma DecodeReadsLetters(part: string, u: string)
    requires FromUrl(part) == u && AllLetters(u) && |u| % 4 != 1
    ensures Decode(part) == DecodeGroups(u)
  {
    AtobUndoesPadding(u);
  }

  lemma FourThirds(n: nat, m: nat)
    requires 4 * n <= 3 * m <= 4 * n + 2
    ensures m == (4 * n + 2) / 3 && m % 4 != 1
  {
  }

  /** The round trip, for every byte string. */
  lemma RoundTrip(bytes: seq<Byte>)
    ensures Decode(Encode(bytes)) == Some(BinaryOf(bytes))
  {
    var u := Unpadded(BinaryOf(bytes));
    EncodeIsUnpadded(bytes);
    AlphabetRoundTrip(u);
    FourThirds(|bytes|, |u|);
    DecodeReadsLetters(Encode(bytes), u);
    GroupsRoundTrip(BinaryOf(bytes));
  }

  /** No two byte strings share an encoding. */
  lemma {:induction false} EncodeIsInjective(a: seq<Byte>, b: seq<Byte>)
    requires Encode(a) == Encode(b)
    ensures a == b
  {
    RoundTrip(a);
    RoundTrip(b);
    BinaryIsInjective(a, b);
  }

  lemma {:induction false} BinaryIsInjective(a: seq<Byte>, b: seq<Byte>)
    requires BinaryOf(a) == BinaryOf(b)
    ensures a == b
  {
    if a != [] {
      var x, y := BinaryOf(a), BinaryOf(b);
      assert x[..|x| - 1] == BinaryOf(a[..|a| - 1]) && y[..|y| - 1] == BinaryOf(b[..|b| - 1]);
      BinaryIsInjective(a[..|a| - 1], b[..|b| - 1]);
      assert x[|x| - 1] == a[|a| - 1] as char && y[|y| - 1] == b[|b| - 1] as char;
      assert a == a[..|a| - 1] + [a[|a| - 1]] && b == b[..|b| - 1] + [b[|b| - 1]];
    }
  }

  lemma {:induction false} RemoveWhitespaceAppend(a: string, b: string)
    ensures RemoveWhitespace(a + b) == RemoveWhitespace(a) + RemoveWhitespace(b)
  {
    if a == "" {
      assert a + b == b;
    } else {
      assert (a + b)[1..] == a[1..] + b;
      RemoveWhitespaceAppend(a[1..], b);
    }
  }

  lemma BlankGoes(c: char)
    requires IsWhitespace(c)
    ensures RemoveWhitespace([c]) == ""
  {
    assert [c][1..] == "" && RemoveWhitespace("") == "";
  }

  /** `atob` reads over blanks, tabs, line feeds, form feeds and carriage returns, wherever they stand. */
  lemma BlanksAreIgnored(a: string, c: char, b: string)
    requires c == ' ' || c == '\t' || c == '\n' || c as int == 0x0C || c == '\r'
    ensures Atob(a + [c] + b) == Atob(a + b)
  {
    RemoveWhitespaceAppend(a + [c], b);
    RemoveWhitespaceAppend(a, [c]);
    RemoveWhitespaceAppend(a, b);
    BlankGoes(c);
    assert RemoveWhitespace(a) + "" == RemoveWhitespace(a);
  }

  // ---- Character by character ----

  const UPPER := "ABCDEFGHIJKLMNOPQRSTUVWXYZ"
  const LOWER := "abcdefghijklmnopqrstuvwxyz"
  const URL_ALPHABET := UPPER + LOWER + "0123456789-_"

  lemma AlphabetParts(upper: string, lower: string, rest: string)
    requires upper == UPPER && lower == LOWER && rest == "0123456789-_"
    ensures |upper| == 26 && |lower| == 26 && |rest| == 12
    ensures forall i | 0 <= i < 26 :: upper[i] as int == 'A' as int + i && lower[i] as int == 'a' as int + i
    ensures forall i | 0 <= i < 10 :: rest[i] as int == '0' as int + i
    ensures rest[10] == '-' && rest[11] == '_'
  {
  }

  lemma UrlLetter(d: Sextet, upper: string, lower: string, rest: string)
    requires |upper| == 26 && |lower| == 26 && |rest| == 12
    requires forall i | 0 <= i < 26 :: upper[i] as int == 'A' as int + i && lower[i] as int == 'a' as int + i
    requires forall i | 0 <= i < 10 :: rest[i] as int == '0' as int + i
    requires rest[10] == '-' && rest[11] == '_'
    ensures ToUrl([Letter(d)])[0] == (upper + lower + rest)[d]
  {
    var c := Letter(d);
    assert ToUrl([c])[0] == if c == '+' then '-' else if c == '/' then '_' else c;
    if d < 26 {
      assert (upper + lower + rest)[d] == upper[d];
    } else if d < 52 {
      assert (upper + lower + rest)[d] == lower[d - 26];
    } else {
      assert (upper + lower + rest)[d] == rest[d - 52];
    }
  }

  lemma AlphabetIsUrl(d: Sextet)
    ensures |URL_ALPHABET| == 64 && ToUrl([Letter(d)])[0] == URL_ALPHABET[d]
  {
    var rest := "0123456789-_";
    AlphabetParts(UPPER, LOWER, rest);
    UrlLetter(d, UPPER, LOWER, rest);
  }

  /** Three bytes from the `g`-th group on as one number, with zeros for those that are missing. */
  function GroupValue(bytes: seq<Byte>, g: nat): (v: nat)
    requires 3 * g < |bytes|
    ensures v < 0x100_0000
  {
    var b: nat := if 3 * g + 1 < |bytes| then bytes[3 * g + 1] else 0;
    var c: nat := if 3 * g + 2 < |bytes| then bytes[3 * g + 2] else 0;
    0x1_0000 * bytes[3 * g] + 0x100 * b + c
  }

  /** The `j`-th six bits, from the left, of a number of 24 bits. */
  function SixBits(v: nat, j: nat): (d: Sextet)
    requires v < 0x100_0000 && j < 4
  {
    if j == 0 then v / 64 / 64 / 64 else if j == 1 then v / 64 / 64 % 64 else if j == 2 then v / 64 % 64 else v % 64
  }

  lemma Shift(q: nat, r: nat)
    requires r < 64
    ensures (64 * q + r) / 64 == q && (64 * q + r) % 64 == r
  {
  }

  lemma SextetsAreSixBits(a: Byte, b: Byte, c: Byte, v: nat)
    requires v == 0x1_0000 * a + 0x100 * b + c
    ensures v < 0x100_0000
    ensures First(a) == SixBits(v, 0) && Second(a, b) == SixBits(v, 1)
    ensures Third(b, c) == SixBits(v, 2) && Fourth(c) == SixBits(v, 3)
  {
    Shift(1024 * a + 4 * b + c / 64, c % 64);
    Shift(16 * a + b / 16, Third(b, c));
    Shift(a / 4, Second(a, b));
  }

  lemma {:induction false} BinaryAt(bytes: seq<Byte>)
    ensures forall i | 0 <= i < |bytes| :: BinaryOf(bytes)[i] == bytes[i] as char
  {
    if bytes != [] {
      BinaryAt(bytes[..|bytes| - 1]);
    }
  }

  lemma GroupLetters(bytes: seq<Byte>, k: nat)
    requires 0 < |bytes| <= 3 && k <= |bytes|
    ensures Letters(BinaryOf(bytes))[k] == Letter(SixBits(GroupValue(bytes, 0), k))
  {
    BinaryAt(bytes);
    SextetsAreSixBits(bytes[0], if |bytes| > 1 then bytes[1] else 0, if |bytes| > 2 then bytes[2] else 0,
      GroupValue(bytes, 0));
  }

  lemma BinarySlices(bytes: seq<Byte>, n: nat)
    requires n <= |bytes|
    ensures BinaryOf(bytes)[..n] == BinaryOf(bytes[..n]) && BinaryOf(bytes)[n..] == BinaryOf(bytes[n..])
  {
    var s, front, rest := BinaryOf(bytes), BinaryOf(bytes[..n]), BinaryOf(bytes[n..]);
    BinaryAt(bytes);
    BinaryAt(bytes[..n]);
    BinaryAt(bytes[n..]);
    assert forall i | 0 <= i < n :: s[..n][i] == front[i];
    assert forall i | 0 <= i < |bytes| - n :: s[n..][i] == rest[i];
  }

  lemma LaterGroup(bytes: seq<Byte>, k: nat)
    requires |bytes| > 3 && k >= 4 && 3 * ((k - 4) / 4) < |bytes| - 3
    ensures k % 4 == (k - 4) % 4 && 3 * (k / 4) < |bytes|
    ensures GroupValue(bytes, k / 4) == GroupValue(bytes[3..], (k - 4) / 4)
  {
    assert k / 4 == (k - 4) / 4 + 1;
  }

  lemma FirstLetters(s: string, k: nat)
    requires IsBinary(s) && |s| > 3 && k < 4
    ensures Unpadded(s)[k] == Letters(s[..3])[k]
  {
  }

  lemma LaterLetters(s: string, k: nat)
    requires IsBinary(s) && |s| > 3 && 4 <= k < |Unpadded(s)|
    ensures k - 4 < |Unpadded(s[3..])| && Unpadded(s)[k] == Unpadded(s[3..])[k - 4]
  {
  }

  /** The letter for the `k`-th six bits. */
  ghost predicate LetterAt(bytes: seq<Byte>, k: nat, c: char)
  {
    3 * (k / 4) < |bytes| && c == Letter(SixBits(GroupValue(bytes, k / 4), k % 4))
  }

  lemma ShiftGroup(bytes: seq<Byte>, k: nat, c: char)
    requires |bytes| > 3 && k >= 4 && LetterAt(bytes[3..], k - 4, c)
    ensures LetterAt(bytes, k, c)
  {
    LaterGroup(bytes, k);
  }

  lemma FirstGroup(bytes: seq<Byte>, k: nat, c: char)
    requires |bytes| > 3 && k < 4 && c == Letter(SixBits(GroupValue(bytes[..3], 0), k))
    ensures LetterAt(bytes, k, c)
  {
    assert k / 4 == 0 && k % 4 == k;
    assert GroupValue(bytes[..3], 0) == GroupValue(bytes, 0);
  }

  lemma FirstFour(bytes: seq<Byte>, k: nat)
    requires |bytes| > 3 && k < 4
    ensures LetterAt(bytes, k, Unpadded(BinaryOf(bytes))[k])
  {
    BinarySlices(bytes, 3);
    FirstLetters(BinaryOf(bytes), k);
    GroupLetters(bytes[..3], k);
    FirstGroup(bytes, k, Letters(BinaryOf(bytes[..3]))[k]);
  }

  lemma {:induction false} UnpaddedAt(bytes: seq<Byte>, k: nat)
    requires k < |Unpadded(BinaryOf(bytes))|
    ensures LetterAt(bytes, k, Unpadded(BinaryOf(bytes))[k])
    decreases |bytes|
  {
    if |bytes| <= 3 {
      GroupLetters(bytes, k);
    } else if k < 4 {
      FirstFour(bytes, k);
    } else {
      BinarySlices(bytes, 3);
      LaterLetters(BinaryOf(bytes), k);
      UnpaddedAt(bytes[3..], k - 4);
      ShiftGroup(bytes, k, Unpadded(BinaryOf(bytes))[k]);
    }
  }

  /** The encoding, character by character: the bytes read as one row of bits, most significant first, six at a time,
      each six as a letter of the URL-safe alphabet. */
  lemma EncodedAt(bytes: seq<Byte>, k: nat)
    requires k < |Encode(bytes)|
    ensures 3 * (k / 4) < |bytes|
    ensures Encode(bytes)[k] == URL_ALPHABET[SixBits(GroupValue(bytes, k / 4), k % 4)]
  {
    var u := Unpadded(BinaryOf(bytes));
    EncodeIsUnpadded(bytes);
    UnpaddedAt(bytes, k);
    var d := SixBits(GroupValue(bytes, k / 4), k % 4);
    AlphabetIsUrl(d);
    assert ToUrl(u)[k] == ToUrl([u[k]])[0];
  }

  // ---- Length and alphabet ----

  /** Section 2.3 of RFC 3986. */
  predicate Unreserved(c: char)
  {
    'A' <= c <= 'Z' || 'a' <= c <= 'z' || '0' <= c <= '9' || c in "-._~"
  }

  /** The encoded length is four thirds, rounded up, and so never 1 modulo 4; every character is unreserved. */
  lemma EncodedShape(bytes: seq<Byte>)
    ensures |Encode(bytes)| == (4 * |bytes| + 2) / 3 && |Encode(bytes)| % 4 != 1
    ensures forall i :: 0 <= i < |Encode(bytes)| ==> Unreserved(Encode(bytes)[i])
  {
    EncodeIsUnpadded(bytes);
    FourThirds(|bytes|, |Encode(bytes)|);
    UrlLettersAreUnreserved(Unpadded(BinaryOf(bytes)));
  }

  lemma UrlLettersAreUnreserved(u: string)
    requires AllLetters(u)
    ensures forall i :: 0 <= i < |ToUrl(u)| ==> Unreserved(ToUrl(u)[i])
  {
    forall i | 0 <= i < |ToUrl(u)|
      ensures Unreserved(ToUrl(u)[i])
    {
      assert IsLetter(u[i]);
    }
  }

  const VERIFIER_BYTES := 64

  /** The code verifier has 86 unreserved characters, within the 43 to 128 of section 4.1 of RFC 7636; the challenge of
      a 32-byte digest has 43. */
  lemma VerifierIsAcceptable(bytes: seq<Byte>)
    requires |bytes| == VERIFIER_BYTES || |bytes| == 32
    ensures |Encode(bytes)| == (if |bytes| == VERIFIER_BYTES then 86 else 43) && 43 <= |Encode(bytes)| <= 128
    ensures forall i :: 0 <= i < |Encode(bytes)| ==> Unreserved(Encode(bytes)[i])
  {
    EncodedShape(bytes);
  }

  lemma ThreeEqualsKeepOne(u: string)
    requires |u| % 4 == 1
    ensures DropPadding(u + Equals(3)) == u + "="
  {
    var s := u + Equals(3);
    assert s[..|s| - 2] == u + "=";
  }

  /** A part whose length is 1 modulo 4 is refused: no claims are read from it. */
  lemma OddLengthIsRefused(part: string)
    requires AllLetters(FromUrl(part)) && |part| % 4 == 1
    ensures Decode(part).None?
  {
    var u := FromUrl(part);
    LettersAreNotBlank(u, 3);
    ThreeEqualsKeepOne(u);
    EqualsIsForeign(u);
  }

  lemma {:induction false} EqualsIsForeign(u: string)
    ensures DecodeGroups(u + "=").None?
  {
    var s := u + "=";
    if |u| >= 4 {
      assert s[4..] == u[4..] + "=";
      EqualsIsForeign(u[4..]);
    } else {
      assert !IsLetter(s[|u|]);
    }
  }
}
