/** Datatypes and text functions that several components share. */
module Base {

  datatype Option<+T> = None | Some(value: T)

  /** Concatenation of a sequence of strings, Python's `"".join(parts)`. */
  function Concat(parts: seq<string>): (s: string)
  {
    if parts == [] then "" else Concat(parts[..|parts| - 1]) + parts[|parts| - 1]
  }

  lemma {:induction false} ConcatCons(part: string, rest: seq<string>)
    ensures Concat([part] + rest) == part + Concat(rest)
  {
    var all := [part] + rest;
    if rest == [] {
      assert all[..0] == [];
    } else {
      ConcatCons(part, rest[..|rest| - 1]);
      assert all[..|all| - 1] == [part] + rest[..|rest| - 1];
    }
  }

  /** The state after a sequence of steps. */
  function Fold<S, T>(next: (S, T) -> S, start: S, steps: seq<T>): (s: S)
  {
    if steps == [] then start else next(Fold(next, start, steps[..|steps| - 1]), steps[|steps| - 1])
  }

  lemma FoldSnoc<S, T>(next: (S, T) -> S, start: S, front: seq<T>, step: T)
    ensures Fold(next, start, front + [step]) == next(Fold(next, start, front), step)
  {
    assert (front + [step])[..|front|] == front;
  }

  lemma {:induction false} FoldSplits<S, T>(next: (S, T) -> S, start: S, a: seq<T>, b: seq<T>)
    ensures Fold(next, start, a + b) == Fold(next, Fold(next, start, a), b)
  {
    if b == [] {
      assert a + b == a;
    } else {
      var front, step := b[..|b| - 1], b[|b| - 1];
      FoldSplits(next, start, a, front);
      assert a + b == (a + front) + [step] && b == front + [step];
      FoldSnoc(next, start, a + front, step);
    }
  }
}

/** The part of Python's `str` that the services rely on. */
module PythonText {

  /** The characters that `str.strip()` removes. */
  predicate IsSpace(c: char)
  {
    var k := c as int;
    || 0x09 <= k <= 0x0D || 0x1C <= k <= 0x20 || k == 0x85 || k == 0xA0 || k == 0x1680
    || 0x2000 <= k <= 0x200A || k == 0x2028 || k == 0x2029 || k == 0x202F || k == 0x205F || k == 0x3000
  }

  function StripLeft(s: string): (r: string)
    ensures |r| <= |s| && r == s[|s| - |r|..]
    ensures r != "" ==> !IsSpace(r[0])
    ensures forall i :: 0 <= i < |s| - |r| ==> IsSpace(s[i])
  {
    if s != "" && IsSpace(s[0]) then StripLeft(s[1..]) else s
  }

  function StripRight(s: string): (r: string)
    ensures |r| <= |s| && r == s[..|r|]
    ensures r != "" ==> !IsSpace(r[|r| - 1])
    ensures forall i :: |r| <= i < |s| ==> IsSpace(s[i])
  {
    if s != "" && IsSpace(s[|s| - 1]) then StripRight(s[..|s| - 1]) else s
  }

  function Strip(s: string): (r: string)
  {
    StripRight(StripLeft(s))
  }

  /** No blank at either end. */
  predicate Trimmed(s: string)
  {
    s != "" ==> !IsSpace(s[0]) && !IsSpace(s[|s| - 1])
  }

  lemma Pieces(s: string, t: string, r: string)
    requires |r| <= |t| <= |s| && t == s[|s| - |t|..] && r == t[..|r|]
    ensures s == s[..|s| - |t|] + r + t[|r|..]
  {
    assert t == r + t[|r|..];
  }

  /** What `strip` promises: the text between the outer blanks, with nothing blank at its own ends. */
  lemma StripSplits(s: string) returns (left: string, right: string)
    ensures s == left + Strip(s) + right
    ensures forall i :: 0 <= i < |left| ==> IsSpace(left[i])
    ensures forall i :: 0 <= i < |right| ==> IsSpace(right[i])
    ensures Trimmed(Strip(s))
  {
    var t := StripLeft(s);
    var r := StripRight(t);
    left, right := s[..|s| - |t|], t[|r|..];
    Pieces(s, t, r);
  }

  predicate AllSpaces(s: string)
  {
    forall i :: 0 <= i < |s| ==> IsSpace(s[i])
  }

  lemma StripsLeft(left: string, s: string)
    requires AllSpaces(left) && s != "" && !IsSpace(s[0])
    ensures StripLeft(left + s) == s
  {
    var all := left + s;
    var r := StripLeft(all);
    assert !IsSpace(all[|left|]);
    assert |all| - |r| <= |left|;
    assert forall i | 0 <= i < |left| :: all[i] == left[i] && IsSpace(all[i]);
    assert r[0] == all[|all| - |r|];
    assert all[|left|..] == s;
  }

  lemma StripsRight(s: string, right: string)
    requires AllSpaces(right) && s != "" && !IsSpace(s[|s| - 1])
    ensures StripRight(s + right) == s
  {
    var all := s + right;
    var r := StripRight(all);
    assert !IsSpace(all[|s| - 1]);
    assert |r| >= |s|;
    assert forall i | |s| <= i < |all| :: all[i] == right[i - |s|] && IsSpace(all[i]);
    assert r[|r| - 1] == all[|r| - 1];
    assert all[..|s|] == s;
  }

  /** Blanks around a text go, whatever they are, and nothing else does. */
  lemma StripUndoesPadding(left: string, s: string, right: string)
    requires AllSpaces(left) && AllSpaces(right) && s != "" && Trimmed(s)
    ensures Strip(left + s + right) == s
  {
    assert left + s + right == left + (s + right);
    StripsLeft(left, s + right);
    StripsRight(s, right);
  }

  lemma StripKeepsTrimmed(s: string)
    requires Trimmed(s)
    ensures Strip(s) == s
  {
  }
}
