/** The search for card numbers in a text: the pattern (?<!\d)(?:\d[ -]?){12,18}\d(?!\d), applied from left to right. */
module CardScan {
  import opened Base
  import opened Identifiers
  import opened Luhn

  predicate IsSeparator(c: char)
  {
    c == ' ' || c == '-'
  }

  predicate DigitAt(s: string, i: int)
  {
    0 <= i < |s| && IsDigit(s[i])
  }

  // ---- What the pattern matches ----

  /** `s[i..j]` is `k` times a digit with an optional separator. */
  predicate Groups(s: string, i: nat, k: nat, j: nat)
    decreases k
  {
    if k == 0 then i == j
    else
      DigitAt(s, i)
      && (Groups(s, i + 1, k - 1, j) || (i + 1 < |s| && IsSeparator(s[i + 1]) && Groups(s, i + 2, k - 1, j)))
  }

  /** The pattern with `k` groups matches `s[i..j]`. */
  predicate Matches(s: string, i: nat, k: nat, j: nat)
  {
    && !DigitAt(s, i - 1)
    && 0 < j && Groups(s, i, k, j - 1) && DigitAt(s, j - 1)
    && !DigitAt(s, j)
  }

  /** The next digit of the same run: adjacent, or behind a single separator. */
  function NextDigit(s: string, p: nat): (q: Option<nat>)
    ensures q.Some? ==> p < q.value <= p + 2 && DigitAt(s, q.value)
  {
    if DigitAt(s, p + 1) then Some(p + 1)
    else if p + 1 < |s| && IsSeparator(s[p + 1]) && DigitAt(s, p + 2) then Some(p + 2)
    else None
  }

  /** The `m`-th digit, from 0, of the run through `i`. */
  function NthDigit(s: string, i: nat, m: nat): (p: Option<nat>)
    ensures p.Some? ==> i + m <= p.value && DigitAt(s, p.value)
    decreases m
  {
    if m == 0 then if DigitAt(s, i) then Some(i) else None
    else
      match NthDigit(s, i, m - 1)
      case None => None
      case Some(p) => NextDigit(s, p)
  }

  /** The engine tries 18 groups first, then fewer; the separators leave it no choice. */
  function TryGroups(s: string, i: nat, k: nat): (j: Option<nat>)
    ensures j.Some? ==> i < j.value <= |s|
  {
    if k < 12 then None
    else if NthDigit(s, i, k).Some? && !DigitAt(s, NthDigit(s, i, k).value + 1) then Some(NthDigit(s, i, k).value + 1)
    else TryGroups(s, i, k - 1)
  }

  function MatchAt(s: string, i: nat): (j: Option<nat>)
    ensures j.Some? ==> i < j.value <= |s|
  {
    if DigitAt(s, i - 1) then None else TryGroups(s, i, 18)
  }

  lemma {:induction false} NthDigitFromSecond(s: string, i: nat, m: nat)
    requires DigitAt(s, i) && m > 0
    ensures NthDigit(s, i, m) ==
      match NextDigit(s, i) case None => None case Some(q) => NthDigit(s, q, m - 1)
  {
    if m > 1 {
      NthDigitFromSecond(s, i, m - 1);
    } else {
      assert NthDigit(s, i, 0) == Some(i);
    }
  }

  /** The groups followed by a digit are exactly the run's digits one after the other. */
  lemma {:induction false} GroupsAreRuns(s: string, i: nat, k: nat, p: nat)
    ensures Groups(s, i, k, p) && DigitAt(s, p) <==> NthDigit(s, i, k) == Some(p)
    decreases k
  {
    if k > 0 {
      if DigitAt(s, i) {
        NthDigitFromSecond(s, i, k);
        GroupsAreRuns(s, i + 1, k - 1, p);
        GroupsAreRuns(s, i + 2, k - 1, p);
        NthNeedsFirst(s, i + 1, k - 1);
        NthNeedsFirst(s, i + 2, k - 1);
      } else {
        NthNeedsFirst(s, i, k);
      }
    }
  }

  lemma {:induction false} NthNeedsFirst(s: string, i: nat, m: nat)
    ensures NthDigit(s, i, m).Some? ==> DigitAt(s, i)
  {
    if m > 0 {
      NthNeedsFirst(s, i, m - 1);
    }
  }

  lemma MatchesIsNth(s: string, i: nat, k: nat, j: nat)
    ensures Matches(s, i, k, j) <==>
      !DigitAt(s, i - 1) && 0 < j && NthDigit(s, i, k) == Some(j - 1) && !DigitAt(s, j)
  {
    if j > 0 {
      GroupsAreRuns(s, i, k, j - 1);
    }
  }

  /** What is found is a match of the pattern. */
  lemma {:induction false} FoundMatches(s: string, i: nat, k: nat) returns (l: nat)
    requires k <= 18 && !DigitAt(s, i - 1) && TryGroups(s, i, k).Some?
    ensures 12 <= l <= k && Matches(s, i, l, TryGroups(s, i, k).value)
  {
    l := k;
    if NthDigit(s, i, k).Some? && !DigitAt(s, NthDigit(s, i, k).value + 1) {
      MatchesIsNth(s, i, k, TryGroups(s, i, k).value);
    } else {
      l := FoundMatches(s, i, k - 1);
    }
  }

  /** And it is the one with the most groups, which is the longest. */
  lemma {:induction false} FoundIsLongest(s: string, i: nat, k: nat, l: nat, j: nat)
    requires 12 <= l <= k && Matches(s, i, l, j)
    ensures TryGroups(s, i, k).Some? && j <= TryGroups(s, i, k).value
  {
    MatchesIsNth(s, i, l, j);
    if l < k {
      if NthDigit(s, i, k).Some? {
        NthDigitsIncrease(s, i, l, k);
      }
      if !(NthDigit(s, i, k).Some? && !DigitAt(s, NthDigit(s, i, k).value + 1)) {
        FoundIsLongest(s, i, k - 1, l, j);
      }
    }
  }

  lemma {:induction false} NthDigitsIncrease(s: string, i: nat, l: nat, k: nat)
    requires l <= k && NthDigit(s, i, k).Some?
    ensures NthDigit(s, i, l).Some? && NthDigit(s, i, l).value <= NthDigit(s, i, k).value
  {
    if l < k {
      NthDigitsIncrease(s, i, l, k - 1);
    }
  }

  /** `CARD_PATTERN.finditer(text)` from position `i`: the matches as pairs of positions. */
  function Scan(s: string, i: nat): (spans: seq<(nat, nat)>)
    ensures forall m :: 0 <= m < |spans| ==> i <= spans[m].0 < spans[m].1 <= |s|
    decreases |s| - i
  {
    if i >= |s| then []
    else
      match MatchAt(s, i)
      case Some(j) => [(i, j)] + Scan(s, j)
      case None => Scan(s, i + 1)
  }

  predicate IsValidCard(value: string)
  {
    CardLength(|DigitsOf(value)|) && Accepts(DigitsOf(value))
  }

  /** The card half of `contains_sensitive_data`. */
  predicate ContainsCard(s: string)
  {
    exists m :: 0 <= m < |Scan(s, 0)| && IsValidCard(s[Scan(s, 0)[m].0..Scan(s, 0)[m].1])
  }

  /** The pattern, with any number of groups that it allows, matches `s[i..j]`. */
  ghost predicate PatternMatches(s: string, i: nat, j: nat)
  {
    exists k: nat :: 12 <= k <= 18 && Matches(s, i, k, j)
  }

  /** Some match starts in front of `i` and reaches beyond it. */
  predicate Covered(spans: seq<(nat, nat)>, i: nat)
  {
    exists m :: 0 <= m < |spans| && spans[m].0 <= i < spans[m].1
  }

  lemma MatchAtIsLongest(s: string, i: nat)
    ensures MatchAt(s, i).Some? ==> PatternMatches(s, i, MatchAt(s, i).value)
    ensures forall j: nat | PatternMatches(s, i, j) :: MatchAt(s, i).Some? && j <= MatchAt(s, i).value
  {
    if MatchAt(s, i).Some? {
      var l := FoundMatches(s, i, 18);
    }
    forall j: nat | PatternMatches(s, i, j)
      ensures MatchAt(s, i).Some? && j <= MatchAt(s, i).value
    {
      var k: nat :| 12 <= k <= 18 && Matches(s, i, k, j);
      FoundIsLongest(s, i, 18, k, j);
    }
  }

  /** Matches of the pattern from `i` on, each the longest at its place, one behind the other; and no match starts at a
      place that none of them covers. */
  ghost predicate LeftmostLongest(s: string, i: nat, spans: seq<(nat, nat)>)
  {
    && (forall m | 0 <= m < |spans| :: i <= spans[m].0 && LongestAt(s, spans[m].0, spans[m].1))
    && (forall m | 0 < m < |spans| :: spans[m - 1].1 <= spans[m].0)
    && (forall p: nat | i <= p && !Covered(spans, p) :: NoMatchAt(s, p))
  }

  ghost predicate LongestAt(s: string, i: nat, j: nat)
  {
    PatternMatches(s, i, j) && forall l: nat | PatternMatches(s, i, l) :: l <= j
  }

  ghost predicate NoMatchAt(s: string, i: nat)
  {
    forall j: nat :: !PatternMatches(s, i, j)
  }

  lemma UncoveredIsBehind(i: nat, b: nat, rest: seq<(nat, nat)>)
    ensures forall p: nat | i <= p && !Covered([(i, b)] + rest, p) :: b <= p && !Covered(rest, p)
  {
    var all := [(i, b)] + rest;
    forall p: nat | i <= p && !Covered(all, p)
      ensures b <= p && !Covered(rest, p)
    {
      assert all[0] == (i, b);
      assert forall m | 0 <= m < |rest| :: all[m + 1] == rest[m];
    }
  }

  lemma NothingMatchesBehind(s: string, p: nat, j: nat)
    requires |s| <= p
    ensures !PatternMatches(s, p, j)
  {
  }

  lemma SkipIsLeftmost(s: string, i: nat, spans: seq<(nat, nat)>)
    requires LeftmostLongest(s, i + 1, spans) && NoMatchAt(s, i)
    ensures LeftmostLongest(s, i, spans)
  {
  }

  lemma ConsIsLeftmost(s: string, i: nat, b: nat, rest: seq<(nat, nat)>)
    requires LongestAt(s, i, b) && i < b && LeftmostLongest(s, b, rest)
    ensures LeftmostLongest(s, i, [(i, b)] + rest)
  {
    var spans := [(i, b)] + rest;
    UncoveredIsBehind(i, b, rest);
    assert forall m | 0 < m < |spans| :: spans[m] == rest[m - 1];
  }

  /** What the scan finds, in every text and so also inside runs of more than 19 digits. */
  lemma {:induction false} ScanIsLeftmostLongest(s: string, i: nat)
    ensures LeftmostLongest(s, i, Scan(s, i))
    decreases |s| - i
  {
    if i < |s| {
      MatchAtIsLongest(s, i);
      match MatchAt(s, i)
      case None =>
        ScanIsLeftmostLongest(s, i + 1);
        SkipIsLeftmost(s, i, Scan(s, i + 1));
      case Some(b) =>
        ScanIsLeftmostLongest(s, b);
        ConsIsLeftmost(s, i, b, Scan(s, b));
    } else {
      forall p: nat, j: nat | i <= p
        ensures !PatternMatches(s, p, j)
      {
        NothingMatchesBehind(s, p, j);
      }
    }
  }

  // ---- Maximal runs ----

  /** A maximal run of digits, single separators allowed between them, begins here. */
  predicate RunStart(s: string, r: nat)
  {
    DigitAt(s, r) && !DigitAt(s, r - 1) && !(r >= 2 && IsSeparator(s[r - 1]) && DigitAt(s, r - 2))
  }

  /** The number of digits from `p` to the end of its run. */
  function RunLength(s: string, p: nat): (n: nat)
    requires p < |s|
    ensures n > 0
    decreases |s| - p
  {
    match NextDigit(s, p)
    case None => 1
    case Some(q) => 1 + RunLength(s, q)
  }

  /** The position behind the last digit of the run. */
  function RunEnd(s: string, p: nat): (e: nat)
    requires p < |s|
    ensures p < e <= |s|
    decreases |s| - p
  {
    match NextDigit(s, p)
    case None => p + 1
    case Some(q) => RunEnd(s, q)
  }

  lemma {:induction false} NthDigitOfRun(s: string, p: nat, m: nat)
    requires DigitAt(s, p)
    ensures NthDigit(s, p, m).Some? <==> m < RunLength(s, p)
    ensures m == RunLength(s, p) - 1 ==> NthDigit(s, p, m) == Some(RunEnd(s, p) - 1)
    decreases |s| - p
  {
    if m > 0 {
      NthDigitFromSecond(s, p, m);
      if NextDigit(s, p).Some? {
        NthDigitOfRun(s, NextDigit(s, p).value, m - 1);
      }
    } else if NextDigit(s, p).Some? {
      assert RunLength(s, p) > 1;
    }
  }

  lemma {:induction false} RunEndsBeforeNonDigit(s: string, p: nat)
    requires DigitAt(s, p)
    ensures !DigitAt(s, RunEnd(s, p))
    decreases |s| - p
  {
    if NextDigit(s, p).Some? {
      RunEndsBeforeNonDigit(s, NextDigit(s, p).value);
    }
  }

  lemma {:induction false} WholeRunMatches(s: string, r: nat, k: nat)
    requires RunStart(s, r) && 13 <= RunLength(s, r) <= k + 1 && k <= 18
    ensures TryGroups(s, r, k) == Some(RunEnd(s, r))
  {
    NthDigitOfRun(s, r, k);
    RunEndsBeforeNonDigit(s, r);
    if RunLength(s, r) <= k {
      WholeRunMatches(s, r, k - 1);
    }
  }

  /** What starts before a run does not reach into it. */
  lemma {:induction false} StaysBeforeRun(s: string, i: nat, m: nat, r: nat)
    requires RunStart(s, r) && i < r && NthDigit(s, i, m).Some?
    ensures NthDigit(s, i, m).value < r
  {
    if m > 0 {
      StaysBeforeRun(s, i, m - 1, r);
    }
  }

  lemma {:induction false} MatchStaysBeforeRun(s: string, i: nat, k: nat, r: nat)
    requires RunStart(s, r) && i < r && TryGroups(s, i, k).Some?
    ensures TryGroups(s, i, k).value <= r
  {
    if NthDigit(s, i, k).Some? {
      StaysBeforeRun(s, i, k, r);
    }
    if !(NthDigit(s, i, k).Some? && !DigitAt(s, NthDigit(s, i, k).value + 1)) {
      MatchStaysBeforeRun(s, i, k - 1, r);
    }
  }

  predicate Spans(spans: seq<(nat, nat)>, a: nat, b: nat)
  {
    exists m :: 0 <= m < |spans| && spans[m] == (a, b)
  }

  lemma SpansCons(a: nat, b: nat, rest: seq<(nat, nat)>, c: nat, d: nat)
    ensures Spans([(a, b)] + rest, c, d) <==> (a, b) == (c, d) || Spans(rest, c, d)
  {
    var all := [(a, b)] + rest;
    assert all[0] == (a, b);
    if m :| 0 <= m < |rest| && rest[m] == (c, d) {
      assert all[m + 1] == (c, d);
    }
  }

  lemma MatchAtRunStart(s: string, r: nat)
    requires RunStart(s, r) && CardLength(RunLength(s, r))
    ensures MatchAt(s, r) == Some(RunEnd(s, r))
  {
    WholeRunMatches(s, r, 18);
  }

  lemma MatchAtStaysBefore(s: string, i: nat, r: nat)
    requires RunStart(s, r) && i < r && MatchAt(s, i).Some?
    ensures MatchAt(s, i).value <= r
  {
    MatchStaysBeforeRun(s, i, 18, r);
  }

  lemma {:induction false} RunIsFound(s: string, i: nat, r: nat)
    requires RunStart(s, r) && CardLength(RunLength(s, r)) && i <= r
    ensures Spans(Scan(s, i), r, RunEnd(s, r))
    decreases |s| - i
  {
    if i == r {
      MatchAtRunStart(s, r);
      SpansCons(r, RunEnd(s, r), Scan(s, RunEnd(s, r)), r, RunEnd(s, r));
    } else {
      match MatchAt(s, i)
      case None => RunIsFound(s, i + 1, r);
      case Some(j) =>
        MatchAtStaysBefore(s, i, r);
        RunIsFound(s, j, r);
        SpansCons(i, j, Scan(s, j), r, RunEnd(s, r));
    }
  }

  lemma {:induction false} RunIsUndisturbed(s: string, i: nat, r: nat, a: nat, b: nat)
    requires RunStart(s, r) && CardLength(RunLength(s, r)) && i <= r && Spans(Scan(s, i), a, b)
    ensures (a, b) == (r, RunEnd(s, r)) || b <= r || RunEnd(s, r) <= a
    decreases |s| - i
  {
    if i == r {
      MatchAtRunStart(s, r);
      SpansCons(r, RunEnd(s, r), Scan(s, RunEnd(s, r)), a, b);
    } else {
      match MatchAt(s, i)
      case None => RunIsUndisturbed(s, i + 1, r, a, b);
      case Some(j) =>
        MatchAtStaysBefore(s, i, r);
        SpansCons(i, j, Scan(s, j), a, b);
        if (a, b) != (i, j) {
          RunIsUndisturbed(s, j, r, a, b);
        }
    }
  }

  /** In every text, each maximal run of 13 to 19 digits gives exactly one match, the whole run: the scan finds it, and
      every other match lies entirely before it or behind it. */
  lemma RunIsMatchedWhole(s: string, r: nat)
    requires RunStart(s, r) && CardLength(RunLength(s, r))
    ensures Spans(Scan(s, 0), r, RunEnd(s, r))
    ensures forall a: nat, b: nat | Spans(Scan(s, 0), a, b) ::
      (a, b) == (r, RunEnd(s, r)) || b <= r || RunEnd(s, r) <= a
  {
    RunIsFound(s, 0, r);
    forall a: nat, b: nat | Spans(Scan(s, 0), a, b)
      ensures (a, b) == (r, RunEnd(s, r)) || b <= r || RunEnd(s, r) <= a
    {
      RunIsUndisturbed(s, 0, r, a, b);
    }
  }

  lemma {:induction false} NthDigitComposes(s: string, r: nat, c: nat, a: nat, m: nat)
    requires NthDigit(s, r, c) == Some(a)
    ensures NthDigit(s, r, c + m) == NthDigit(s, a, m)
  {
    if m > 0 {
      NthDigitComposes(s, r, c, a, m - 1);
    }
  }

  /** Every digit lies in a maximal run. */
  lemma {:induction false} FindRun(s: string, a: nat) returns (r: nat, c: nat)
    requires DigitAt(s, a)
    ensures r <= a && RunStart(s, r) && NthDigit(s, r, c) == Some(a)
  {
    if RunStart(s, a) {
      r, c := a, 0;
    } else {
      var p: nat := if DigitAt(s, a - 1) then a - 1 else a - 2;
      r, c := FindRun(s, p);
      c := c + 1;
    }
  }

  lemma {:induction false} NthIsInRun(s: string, r: nat, c: nat)
    requires DigitAt(s, r) && NthDigit(s, r, c).Some?
    ensures r <= NthDigit(s, r, c).value < RunEnd(s, r)
    decreases |s| - r
  {
    if c > 0 {
      NthDigitFromSecond(s, r, c);
      NthIsInRun(s, NextDigit(s, r).value, c - 1);
    }
  }

  lemma {:induction false} MatchNeedsDigits(s: string, a: nat, k: nat) returns (m: nat)
    requires TryGroups(s, a, k).Some?
    ensures DigitAt(s, a) && m >= 12 && NthDigit(s, a, m).Some?
  {
    if NthDigit(s, a, k).Some? && !DigitAt(s, NthDigit(s, a, k).value + 1) {
      NthNeedsFirst(s, a, k);
      m := k;
    } else {
      m := MatchNeedsDigits(s, a, k - 1);
    }
  }

  /** A match lies in a maximal run with at least 13 digits. */
  lemma MatchLiesInRun(s: string, a: nat, k: nat) returns (r: nat)
    requires TryGroups(s, a, k).Some?
    ensures RunStart(s, r) && r <= a < RunEnd(s, r) && RunLength(s, r) >= 13
  {
    var m := MatchNeedsDigits(s, a, k);
    var c: nat;
    r, c := FindRun(s, a);
    NthDigitComposes(s, r, c, a, m);
    NthDigitOfRun(s, r, c + m);
    NthIsInRun(s, r, c);
  }

  lemma {:induction false} ScanUsesMatchAt(s: string, i: nat, a: nat, b: nat)
    requires Spans(Scan(s, i), a, b)
    ensures MatchAt(s, a) == Some(b)
    decreases |s| - i
  {
    match MatchAt(s, i)
    case None => ScanUsesMatchAt(s, i + 1, a, b);
    case Some(j) =>
      SpansCons(i, j, Scan(s, j), a, b);
      if (a, b) != (i, j) {
        ScanUsesMatchAt(s, j, a, b);
      }
  }

  ghost predicate RunsAtMost19(s: string)
  {
    forall r: nat | RunStart(s, r) :: RunLength(s, r) <= 19
  }

  lemma MatchIsRun(s: string, a: nat, b: nat)
    requires RunsAtMost19(s) && Spans(Scan(s, 0), a, b)
    ensures RunStart(s, a) && CardLength(RunLength(s, a)) && b == RunEnd(s, a)
  {
    ScanUsesMatchAt(s, 0, a, b);
    var r := MatchLiesInRun(s, a, 18);
    RunIsUndisturbed(s, 0, r, a, b);
  }

  /** When no run has more than 19 digits, the matches are exactly the maximal runs of 13 to 19 digits. */
  lemma MatchesAreRuns(s: string, a: nat, b: nat)
    requires RunsAtMost19(s)
    ensures Spans(Scan(s, 0), a, b) <==> RunStart(s, a) && CardLength(RunLength(s, a)) && b == RunEnd(s, a)
  {
    if Spans(Scan(s, 0), a, b) {
      MatchIsRun(s, a, b);
    } else if RunStart(s, a) && CardLength(RunLength(s, a)) {
      RunIsFound(s, 0, a);
    }
  }

  // ---- Detection ----

  function RunText(s: string, r: nat): (t: string)
    requires r < |s|
  {
    s[r..RunEnd(s, r)]
  }

  lemma {:induction false} DigitsOfAppend(a: string, b: string)
    ensures DigitsOf(a + b) == DigitsOf(a) + DigitsOf(b)
  {
    if b == "" {
      assert a + b == a;
    } else {
      DigitsOfAppend(a, b[..|b| - 1]);
      assert (a + b)[..|a + b| - 1] == a + b[..|b| - 1];
    }
  }

  /** The text of a run has as many digits as the run. */
  lemma {:induction false} RunTextDigits(s: string, r: nat)
    requires DigitAt(s, r)
    ensures |DigitsOf(RunText(s, r))| == RunLength(s, r)
    decreases |s| - r
  {
    match NextDigit(s, r)
    case None => assert RunText(s, r) == [s[r]];
    case Some(q) =>
      RunTextDigits(s, q);
      if q == r + 1 {
        assert RunText(s, r) == [s[r]] + RunText(s, q);
        DigitsOfAppend([s[r]], RunText(s, q));
      } else {
        assert RunText(s, r) == [s[r]] + [s[r + 1]] + RunText(s, q);
        DigitsOfAppend([s[r]], [s[r + 1]]);
        DigitsOfAppend([s[r]] + [s[r + 1]], RunText(s, q));
      }
  }

  /** A maximal run of 13 to 19 digits that passes the Luhn check, however it is spaced. Digits in front of a number or
      behind it, adjacent or a single space or dash away, belong to its run and are judged with it. */
  predicate CardAt(s: string, r: nat)
  {
    RunStart(s, r) && CardLength(RunLength(s, r)) && Accepts(DigitsOf(RunText(s, r)))
  }

  /** In every text, a card number is reported. */
  lemma CardIsDetected(s: string, r: nat)
    requires CardAt(s, r)
    ensures ContainsCard(s)
  {
    RunIsMatchedWhole(s, r);
    var spans := Scan(s, 0);
    var m :| 0 <= m < |spans| && spans[m] == (r, RunEnd(s, r));
    RunTextDigits(s, r);
    assert IsValidCard(s[spans[m].0..spans[m].1]);
  }

  /** Detection is exact: if no run has more than 19 digits, a card number is reported exactly when there is one. */
  lemma DetectionIsExact(s: string)
    requires RunsAtMost19(s)
    ensures ContainsCard(s) <==> exists r: nat :: CardAt(s, r)
  {
    var spans := Scan(s, 0);
    if ContainsCard(s) {
      var m :| 0 <= m < |spans| && IsValidCard(s[spans[m].0..spans[m].1]);
      assert Spans(spans, spans[m].0, spans[m].1);
      MatchesAreRuns(s, spans[m].0, spans[m].1);
      assert CardAt(s, spans[m].0);
    }
    if r: nat :| CardAt(s, r) {
      CardIsDetected(s, r);
    }
  }

  // ---- Card numbers as they are written ----

  function DigitText(d: Digit): (c: char)
    ensures IsDigit(c) && DigitValue(c) == d
  {
    ['0', '1', '2', '3', '4', '5', '6', '7', '8', '9'][d]
  }

  /** Nothing, a space or a dash between any two digits. */
  predicate Gaps(gaps: seq<string>)
  {
    forall i | 0 <= i < |gaps| :: gaps[i] == "" || gaps[i] == " " || gaps[i] == "-"
  }

  /** Digits with gaps between them. */
  function Spaced(digits: seq<Digit>, gaps: seq<string>): (s: string)
    requires digits != [] && |gaps| == |digits| - 1
    ensures s != "" && IsDigit(s[0])
  {
    if |digits| == 1 then [DigitText(digits[0])]
    else [DigitText(digits[0])] + (gaps[0] + Spaced(digits[1..], gaps[1..]))
  }

  predicate NoDigits(s: string)
  {
    forall i | 0 <= i < |s| :: !('0' <= s[i] <= '9')
  }

  lemma OneDigitText(d: Digit)
    ensures DigitsOf([DigitText(d)]) == [d]
  {
    assert [DigitText(d)][..0] == "" && DigitsOf("") == [];
  }

  lemma {:induction false} NoDigitsHere(s: string)
    requires NoDigits(s)
    ensures DigitsOf(s) == []
  {
    if s != "" {
      NoDigitsHere(s[..|s| - 1]);
    }
  }

  lemma {:induction false} SpacedDigits(digits: seq<Digit>, gaps: seq<string>)
    requires digits != [] && |gaps| == |digits| - 1 && Gaps(gaps)
    ensures DigitsOf(Spaced(digits, gaps)) == digits
  {
    OneDigitText(digits[0]);
    if |digits| > 1 {
      var rest := Spaced(digits[1..], gaps[1..]);
      SpacedDigits(digits[1..], gaps[1..]);
      NoDigitsHere(gaps[0]);
      DigitsOfAppend(gaps[0], rest);
      DigitsOfAppend([DigitText(digits[0])], gaps[0] + rest);
      assert [digits[0]] + digits[1..] == digits;
    }
  }

  /** The digit at the end of `before`, a gap, and another digit. */
  lemma GapIsBridged(before: string, c: char, gap: string, rest: string)
    requires IsDigit(c) && rest != "" && IsDigit(rest[0]) && Gaps([gap])
    ensures
      var s, p := before + [c] + gap + rest, |before|;
      && DigitAt(s, p) && NextDigit(s, p) == Some(p + 1 + |gap|)
      && forall q | p < q <= p + 1 + |gap| :: !RunStart(s, q)
  {
    assert [gap][0] == gap;
    var s, p := before + [c] + gap + rest, |before|;
    assert s[p] == c && s[p + 1 + |gap|] == rest[0];
    assert gap != "" ==> s[p + 1] == gap[0];
  }

  lemma NumberEnds(before: string, c: char, after: string)
    requires IsDigit(c) && NoDigits(after)
    ensures DigitAt(before + [c] + after, |before|) && NextDigit(before + [c] + after, |before|) == None
  {
    var s, p := before + [c] + after, |before|;
    assert s[p] == c;
    assert forall i | 0 <= i < |after| :: s[p + 1 + i] == after[i];
  }

  lemma RunFromFirst(s: string, p: nat, q: nat)
    requires DigitAt(s, p) && NextDigit(s, p) == Some(q)
    ensures RunLength(s, p) == 1 + RunLength(s, q) && RunEnd(s, p) == RunEnd(s, q)
  {
  }

  lemma Regroup(before: string, c: char, gap: string, rest: string, after: string)
    ensures before + ([c] + (gap + rest)) + after == before + [c] + gap + rest + after
    ensures before + [c] + gap + rest + after == before + [c] + gap + (rest + after)
  {
  }

  ghost predicate OneRun(s: string, p: nat, n: nat, e: nat)
  {
    && DigitAt(s, p) && RunLength(s, p) == n && RunEnd(s, p) == e
    && forall q | p < q < e :: !RunStart(s, q)
  }

  lemma OneRunFromFirst(s: string, p: nat, q: nat, n: nat, e: nat)
    requires DigitAt(s, p) && NextDigit(s, p) == Some(q) && OneRun(s, q, n, e)
    requires forall k | p < k <= q :: !RunStart(s, k)
    ensures OneRun(s, p, n + 1, e)
  {
    RunFromFirst(s, p, q);
  }

  /** A spaced number is one run. */
  lemma {:induction false} SpacedIsOneRun(before: string, digits: seq<Digit>, gaps: seq<string>, after: string)
    requires digits != [] && |gaps| == |digits| - 1 && Gaps(gaps) && NoDigits(after)
    ensures OneRun(before + Spaced(digits, gaps) + after, |before|, |digits|, |before| + |Spaced(digits, gaps)|)
    decreases |digits|
  {
    var c := DigitText(digits[0]);
    if |digits| == 1 {
      NumberEnds(before, c, after);
    } else {
      var gap, rest := gaps[0], Spaced(digits[1..], gaps[1..]);
      SpacedIsOneRun(before + [c] + gap, digits[1..], gaps[1..], after);
      Regroup(before, c, gap, rest, after);
      assert [gap][0] == gap;
      GapIsBridged(before, c, gap, rest + after);
      OneRunFromFirst(before + [c] + gap + rest + after, |before|, |before + [c] + gap|, |digits| - 1,
        |before + [c] + gap| + |rest|);
    }
  }

  lemma NowhereElse(before: string, number: string, after: string, q: nat)
    requires NoDigits(before) && NoDigits(after) && (q < |before| || |before| + |number| <= q)
    ensures !DigitAt(before + number + after, q)
  {
    var s := before + number + after;
    if q < |before| {
      assert s[q] == before[q];
    } else if q < |s| {
      assert s[q] == after[q - |before| - |number|];
    }
  }

  lemma NumberIsTheRun(before: string, digits: seq<Digit>, gaps: seq<string>, after: string)
    requires digits != [] && |gaps| == |digits| - 1 && Gaps(gaps) && NoDigits(before) && NoDigits(after)
    ensures
      var s := before + Spaced(digits, gaps) + after;
      && RunStart(s, |before|) && RunLength(s, |before|) == |digits| && RunText(s, |before|) == Spaced(digits, gaps)
      && forall r: nat | RunStart(s, r) :: r == |before|
  {
    var number := Spaced(digits, gaps);
    var s := before + number + after;
    SpacedIsOneRun(before, digits, gaps, after);
    assert s[|before|..|before| + |number|] == number;
    forall q: nat | q < |before| || |before| + |number| <= q
      ensures !DigitAt(s, q)
    {
      NowhereElse(before, number, after, q);
    }
  }

  /** A number of up to 19 digits, with a space, a dash or nothing between any two of them, in a text without other
      digits: it is reported exactly if it has at least 13 digits and passes the Luhn check. */
  lemma SpacedCardIsDetected(before: string, digits: seq<Digit>, gaps: seq<string>, after: string)
    requires 0 < |digits| <= 19 && |gaps| == |digits| - 1 && Gaps(gaps) && NoDigits(before) && NoDigits(after)
    ensures ContainsCard(before + Spaced(digits, gaps) + after) <==> |digits| >= 13 && LuhnSum(digits) % 10 == 0
  {
    var s, r := before + Spaced(digits, gaps) + after, |before|;
    NumberIsTheRun(before, digits, gaps, after);
    SpacedDigits(digits, gaps);
    DetectionIsExact(s);
    assert CardAt(s, r) <==> |digits| >= 13 && LuhnSum(digits) % 10 == 0;
  }
}
