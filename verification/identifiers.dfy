/** Order ids, workflow ids and idempotency keys: how numbers are printed and read back. */
module Identifiers {
  import opened Base
  import PythonText

  predicate IsDigit(c: char)
  {
    '0' <= c <= '9'
  }

  predicate AllDigits(s: string)
  {
    forall i :: 0 <= i < |s| ==> IsDigit(s[i])
  }

  function DigitChar(d: nat): (c: char)
    requires d < 10
    ensures IsDigit(c) && DigitValue(c) == d
  {
    ('0' as int + d) as char
  }

  function DigitValue(c: char): (d: nat)
    requires IsDigit(c)
  {
    c as int - '0' as int
  }

  /** `str(n)`: the decimal numeral without leading zeros. */
  function Decimal(n: nat): (s: string)
    ensures s != "" && AllDigits(s)
  {
    if n < 10 then [DigitChar(n)] else Decimal(n / 10) + [DigitChar(n % 10)]
  }

  /** `int(s)` on a string of digits. */
  function Value(s: string): (n: nat)
    requires AllDigits(s)
  {
    if s == "" then 0 else 10 * Value(s[..|s| - 1]) + DigitValue(s[|s| - 1])
  }

  function Zeros(k: nat): (s: string)
    ensures |s| == k && forall i :: 0 <= i < k ==> s[i] == '0'
  {
    seq(k, i => '0')
  }

  /** `f"{n:03d}"`. */
  function Padded(n: nat): (s: string)
    ensures |s| >= 3 && AllDigits(s)
  {
    var s := Decimal(n);
    if |s| < 3 then Zeros(3 - |s|) + s else s
  }

  const ORDER_PREFIX := "ORD-"

  /** `f"ORD-{n:03d}"`. */
  function OrderId(n: nat): (s: string)
  {
    ORDER_PREFIX + Padded(n)
  }

  function Upper(s: string): (r: string)
    ensures |r| == |s|
  {
    seq(|s|, i requires 0 <= i < |s| => if 'a' <= s[i] <= 'z' then (s[i] as int - 32) as char else s[i])
  }

  /** `order_id.strip().upper()` matched against `ORD-(\d+)` in full, then `int`. */
  function ParseOrderId(text: string): (n: Option<nat>)
  {
    var id := Upper(PythonText.Strip(text));
    if |id| > 4 && id[..4] == ORDER_PREFIX && AllDigits(id[4..]) then Some(Value(id[4..])) else None
  }

  datatype Kind = Refunding | Cancelling

  function WorkflowId(kind: Kind, n: nat): (s: string)
  {
    match kind
    case Refunding => "refund-order-" + Decimal(n)
    case Cancelling => "cancel-order-" + Decimal(n)
  }

  function IdempotencyKey(n: nat): (s: string)
  {
    "refund-order-" + Decimal(n)
  }

  lemma {:induction false} ValueOfDecimal(n: nat)
    ensures Value(Decimal(n)) == n
  {
    if n >= 10 {
      ValueOfDecimal(n / 10);
      assert Decimal(n)[..|Decimal(n)| - 1] == Decimal(n / 10);
    }
  }

  lemma {:induction false} ValueIgnoresLeadingZeros(k: nat, s: string)
    requires AllDigits(s)
    ensures AllDigits(Zeros(k) + s) && Value(Zeros(k) + s) == Value(s)
  {
    var t := Zeros(k) + s;
    if s != "" {
      ValueIgnoresLeadingZeros(k, s[..|s| - 1]);
      assert t[..|t| - 1] == Zeros(k) + s[..|s| - 1];
    } else if k > 0 {
      ValueIgnoresLeadingZeros(k - 1, s);
      assert t[..|t| - 1] == Zeros(k - 1) + s;
    }
  }

  /** Reading a printed order id gives the number back, with any blanks around it and in any letter case. */
  lemma ParsePrinted(n: nat, typed: string)
    requires Upper(PythonText.Strip(typed)) == OrderId(n)
    ensures ParseOrderId(typed) == Some(n)
  {
    var s := Decimal(n);
    assert OrderId(n)[..4] == ORDER_PREFIX && OrderId(n)[4..] == Padded(n);
    ValueOfDecimal(n);
    if |s| < 3 {
      ValueIgnoresLeadingZeros(3 - |s|, s);
    }
  }

  lemma UpperKeeps(s: string)
    requires forall i :: 0 <= i < |s| ==> !('a' <= s[i] <= 'z')
    ensures Upper(s) == s
  {
  }

  lemma OrderIdIsNormal(n: nat)
    ensures Upper(PythonText.Strip(OrderId(n))) == OrderId(n)
  {
    var id, digits := OrderId(n), Padded(n);
    forall i | 0 <= i < |id|
      ensures id[i] in ORDER_PREFIX || IsDigit(id[i])
    {
      assert if i < 4 then id[i] in ORDER_PREFIX else id[i] == digits[i - 4];
    }
    UpperKeeps(id);
    assert PythonText.Strip(id) == id by {
      PythonText.StripKeepsTrimmed(id);
    }
  }

  /** The order id round trip, for every natural number. */
  lemma OrderIdRoundTrip(n: nat)
    ensures ParseOrderId(OrderId(n)) == Some(n)
  {
    OrderIdIsNormal(n);
    ParsePrinted(n, OrderId(n));
  }

  lemma {:induction false} DecimalIsShortest(n: nat)
    ensures n > 0 ==> Decimal(n)[0] != '0'
    ensures |Decimal(n)| == 1 <==> n < 10
    ensures |Decimal(n)| <= 2 <==> n < 100
  {
    if n >= 10 {
      DecimalIsShortest(n / 10);
      assert Decimal(n)[0] == Decimal(n / 10)[0];
    }
  }

  /** A printed order id has at least three digits, with zeros in front of a shorter numeral only. */
  lemma OrderIdIsPadded(n: nat)
    ensures OrderId(n) == "ORD-" + (if n < 10 then "00" else if n < 100 then "0" else "") + Decimal(n)
  {
    DecimalIsShortest(n);
    var s := Decimal(n);
    assert if n < 10 then Zeros(3 - |s|) == "00" else n < 100 ==> Zeros(3 - |s|) == "0";
  }

  /** ORD- in any letter case. */
  predicate IsPrefix(s: string)
  {
    |s| == 4 && s[0] in "Oo" && s[1] in "Rr" && s[2] in "Dd" && s[3] == '-'
  }

  /** The text spells the order number: blanks, the prefix, digits, blanks. */
  predicate Spells(text: string, left: string, prefix: string, digits: string, right: string, n: nat)
  {
    && text == left + (prefix + digits) + right
    && PythonText.AllSpaces(left) && PythonText.AllSpaces(right)
    && IsPrefix(prefix) && digits != "" && AllDigits(digits) && Value(digits) == n
  }

  lemma UpperPrefix(s: string)
    ensures Upper(s) == "ORD-" <==> IsPrefix(s)
  {
    if |s| == 4 {
      assert Upper(s) == [Upper(s)[0], Upper(s)[1], Upper(s)[2], Upper(s)[3]];
    }
  }

  lemma UpperDigits(s: string)
    ensures AllDigits(Upper(s)) <==> AllDigits(s)
    ensures AllDigits(s) ==> Upper(s) == s
  {
    if AllDigits(Upper(s)) {
      forall i | 0 <= i < |s|
        ensures IsDigit(s[i])
      {
        assert IsDigit(Upper(s)[i]);
      }
    }
  }

  lemma UpperSplits(core: string)
    requires |core| >= 4
    ensures Upper(core)[..4] == Upper(core[..4]) && Upper(core)[4..] == Upper(core[4..])
  {
  }

  lemma CoreIsParsed(core: string)
    requires |core| > 4
    ensures Upper(core)[..4] == ORDER_PREFIX <==> IsPrefix(core[..4])
    ensures AllDigits(Upper(core)[4..]) <==> AllDigits(core[4..])
    ensures AllDigits(core[4..]) ==> Upper(core)[4..] == core[4..]
  {
    UpperSplits(core);
    UpperPrefix(core[..4]);
    UpperDigits(core[4..]);
  }

  /** What is accepted and what is refused: exactly the texts that spell an order number with the prefix, and each as
      the number that it spells. */
  lemma ParsesExactly(text: string, n: nat)
    ensures ParseOrderId(text) == Some(n) <==>
      exists left, prefix, digits, right :: Spells(text, left, prefix, digits, right, n)
  {
    if ParseOrderId(text) == Some(n) {
      var left, right := PythonText.StripSplits(text);
      var core := PythonText.Strip(text);
      CoreIsParsed(core);
      assert core == core[..4] + core[4..];
      assert Spells(text, left, core[..4], core[4..], right, n);
    }
    if left, prefix, digits, right :| Spells(text, left, prefix, digits, right, n) {
      SpelledIsParsed(text, left, prefix, digits, right, n);
    }
  }

  lemma SpelledIsParsed(text: string, left: string, prefix: string, digits: string, right: string, n: nat)
    requires Spells(text, left, prefix, digits, right, n)
    ensures ParseOrderId(text) == Some(n)
  {
    var core := prefix + digits;
    assert IsDigit(core[|core| - 1]);
    PythonText.StripUndoesPadding(left, core, right);
    CoreIsParsed(core);
    assert core[..4] == prefix && core[4..] == digits;
  }

  /** Parse-then-print: the id that the tools report for an accepted text. */
  function Canonical(text: string): (id: Option<string>)
  {
    match ParseOrderId(text)
    case Some(n) => Some(OrderId(n))
    case None => None
  }

  /** Parse-then-print accepts its own output, changes nothing the second time, and two texts get the same
      canonical id exactly when they name the same order. */
  lemma CanonicalIsANormaliser(a: string, b: string)
    requires ParseOrderId(a).Some? && ParseOrderId(b).Some?
    ensures Canonical(Canonical(a).value) == Canonical(a)
    ensures Canonical(a) == Canonical(b) <==> ParseOrderId(a) == ParseOrderId(b)
  {
    OrderIdRoundTrip(ParseOrderId(a).value);
    OrderIdRoundTrip(ParseOrderId(b).value);
  }

  lemma DecimalInjective(m: nat, n: nat)
    requires Decimal(m) == Decimal(n)
    ensures m == n
  {
    ValueOfDecimal(m);
    ValueOfDecimal(n);
  }

  /** One workflow id per kind of action and order. */
  lemma WorkflowIdInjective(k: Kind, m: nat, l: Kind, n: nat)
    ensures WorkflowId(k, m) == WorkflowId(l, n) <==> k == l && m == n
  {
    if WorkflowId(k, m) == WorkflowId(l, n) {
      assert WorkflowId(k, m)[0] == WorkflowId(l, n)[0];
      assert WorkflowId(k, m)[13..] == Decimal(m) && WorkflowId(l, n)[13..] == Decimal(n);
      DecimalInjective(m, n);
    }
  }

  /** The idempotency key names one order, and is never a cancellation's id. */
  lemma IdempotencyKeyInjective(m: nat, n: nat)
    ensures IdempotencyKey(m) == IdempotencyKey(n) <==> m == n
    ensures IdempotencyKey(m) != WorkflowId(Cancelling, n)
    ensures IdempotencyKey(n) == WorkflowId(Refunding, n) == "refund-order-" + Decimal(n)
    ensures WorkflowId(Cancelling, n) == "cancel-order-" + Decimal(n)
  {
    WorkflowIdInjective(Refunding, m, Refunding, n);
    WorkflowIdInjective(Refunding, m, Cancelling, n);
  }
}
