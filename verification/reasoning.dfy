/** Removal of a model's <think> blocks from its answer. */
module Reasoning {
  import opened Base
  import PythonText
  import Identifiers

  const OPEN_TAG := "<think>"
  const CLOSE_TAG := "</think>"

  /** A character of the text matches a character of the pattern when letter case is ignored; i and k have further
      case variants outside ASCII. */
  predicate CaseMatch(p: char, c: char)
  {
    || p == c
    || ('a' <= p <= 'z' && c as int == p as int - 32)
    || (p == 'i' && (c as int == 0x130 || c as int == 0x131))
    || (p == 'k' && c as int == 0x212A)
  }

  predicate TagAt(s: string, i: int, tag: string)
  {
    0 <= i && i + |tag| <= |s| && forall k :: 0 <= k < |tag| ==> CaseMatch(tag[k], s[i + k])
  }

  /** The first place from `i` on where the tag stands. */
  function FindTag(s: string, i: nat, tag: string): (j: Option<nat>)
    requires tag != ""
    ensures j.Some? ==> i <= j.value && TagAt(s, j.value, tag)
    ensures j.Some? ==> forall k :: i <= k < j.value ==> !TagAt(s, k, tag)
    ensures j.None? ==> forall k :: i <= k ==> !TagAt(s, k, tag)
    decreases |s| - i
  {
    if TagAt(s, i, tag) then Some(i)
    else if i >= |s| then None
    else FindTag(s, i + 1, tag)
  }

  ghost predicate TagFree(s: string)
  {
    forall i: int :: !TagAt(s, i, OPEN_TAG)
  }

  /** Where the first block begins and ends: an opening tag, and the first closing tag behind it. When the first opening
      tag has no closing tag behind it, no later one has. */
  function NextBlock(s: string): (block: Option<(nat, nat)>)
    ensures block.Some? ==> block.value.0 < block.value.1 <= |s|
  {
    match FindTag(s, 0, OPEN_TAG)
    case None => None
    case Some(i) =>
      match FindTag(s, i + |OPEN_TAG|, CLOSE_TAG)
      case None => None
      case Some(j) => Some((i, j + |CLOSE_TAG|))
  }

  /** `_THINK_BLOCK.sub("", text)`. */
  function RemoveBlocks(s: string): (r: string)
    decreases |s|
  {
    match NextBlock(s)
    case None => s
    case Some((from, to)) => s[..from] + RemoveBlocks(s[to..])
  }

  /** `_THINK_OPEN.sub("", text)`: an opening tag that is left goes with everything behind it. */
  function CutUnclosed(s: string): (r: string)
  {
    match FindTag(s, 0, OPEN_TAG)
    case None => s
    case Some(i) => s[..i]
  }

  function StripReasoning(text: string): (r: string)
  {
    PythonText.Strip(CutUnclosed(RemoveBlocks(text)))
  }

  // ---- What the removal guarantees ----

  lemma TagMoves(left: string, s: string, right: string, i: int, tag: string)
    requires TagAt(s, i, tag)
    ensures TagAt(left + s + right, |left| + i, tag)
  {
    var all := left + s + right;
    assert all[|left| + i..|left| + i + |tag|] == s[i..i + |tag|];
    forall k | 0 <= k < |tag|
      ensures CaseMatch(tag[k], all[|left| + i + k])
    {
      assert all[|left| + i + k] == s[i + k];
    }
  }

  /** A part of a tag-free text is tag-free. */
  lemma PartIsTagFree(left: string, s: string, right: string)
    requires TagFree(left + s + right)
    ensures TagFree(s)
  {
    forall i: int | TagAt(s, i, OPEN_TAG)
      ensures false
    {
      TagMoves(left, s, right, i, OPEN_TAG);
    }
  }

  lemma CutIsTagFree(s: string)
    ensures TagFree(CutUnclosed(s))
  {
    var r := CutUnclosed(s);
    forall i: int | TagAt(r, i, OPEN_TAG)
      ensures false
    {
      assert "" + r + s[|r|..] == s;
      TagMoves("", r, s[|r|..], i, OPEN_TAG);
    }
  }

  /** No opening tag survives, not even one that comes together only when a block between its halves is removed. */
  lemma NoTagSurvives(text: string)
    ensures TagFree(StripReasoning(text)) && PythonText.Trimmed(StripReasoning(text))
  {
    var cut := CutUnclosed(RemoveBlocks(text));
    CutIsTagFree(RemoveBlocks(text));
    var left, right := PythonText.StripSplits(cut);
    PartIsTagFree(left, StripReasoning(text), right);
  }

  lemma TagFreeIsUntouched(s: string)
    requires TagFree(s)
    ensures RemoveBlocks(s) == s && CutUnclosed(s) == s
  {
    assert FindTag(s, 0, OPEN_TAG).None?;
  }

  /** On a text without tags, removing reasoning is plain trimming. */
  lemma TagFreeIsTrimmed(text: string)
    requires TagFree(text)
    ensures StripReasoning(text) == PythonText.Strip(text)
  {
    TagFreeIsUntouched(text);
  }

  lemma Idempotent(text: string)
    ensures StripReasoning(StripReasoning(text)) == StripReasoning(text)
  {
    NoTagSurvives(text);
    TagFreeIsTrimmed(StripReasoning(text));
    PythonText.StripKeepsTrimmed(StripReasoning(text));
  }

  /** `part` is what is left of `whole` after some of its characters are deleted. */
  predicate Subsequence(part: string, whole: string)
  {
    if part == "" then true
    else if whole == "" then false
    else if part[0] == whole[0] && Subsequence(part[1..], whole[1..]) then true
    else Subsequence(part, whole[1..])
  }

  lemma {:induction false} DropIsSubsequence(part: string, whole: string, n: nat)
    requires n <= |whole| && Subsequence(part, whole[n..])
    ensures Subsequence(part, whole)
  {
    if n > 0 {
      assert whole[1..][n - 1..] == whole[n..];
      DropIsSubsequence(part, whole[1..], n - 1);
    }
  }

  lemma {:induction false} KeepIsSubsequence(a: string, part: string, whole: string)
    requires Subsequence(part, whole)
    ensures Subsequence(a + part, a + whole)
  {
    if a == "" {
      assert a + part == part && a + whole == whole;
    } else {
      KeepIsSubsequence(a[1..], part, whole);
      assert (a + part)[1..] == a[1..] + part && (a + whole)[1..] == a[1..] + whole;
    }
  }

  lemma {:induction false} SubsequenceTransitive(a: string, b: string, c: string)
    requires Subsequence(a, b) && Subsequence(b, c)
    ensures Subsequence(a, c)
    decreases |b| + |c|
  {
    if a != "" && b != "" {
      if b[0] == c[0] && Subsequence(b[1..], c[1..]) {
        if a[0] == b[0] && Subsequence(a[1..], b[1..]) {
          SubsequenceTransitive(a[1..], b[1..], c[1..]);
        } else {
          SubsequenceTransitive(a, b[1..], c[1..]);
        }
      } else {
        SubsequenceTransitive(a, b, c[1..]);
      }
    }
  }

  lemma {:induction false} PartIsSubsequence(left: string, s: string, right: string)
    ensures Subsequence(s, left + s + right)
  {
    KeepIsSubsequence(s, "", right);
    assert s + "" == s;
    var all := left + s + right;
    assert all[|left|..] == s + right;
    DropIsSubsequence(s, all, |left|);
  }

  lemma GapIsSubsequence(part: string, s: string, from: nat, to: nat)
    requires from <= to <= |s| && Subsequence(part, s[to..])
    ensures Subsequence(s[..from] + part, s)
  {
    assert s[from..][to - from..] == s[to..];
    DropIsSubsequence(part, s[from..], to - from);
    KeepIsSubsequence(s[..from], part, s[from..]);
    assert s[..from] + s[from..] == s;
  }

  lemma {:induction false} RemoveBlocksIsSubsequence(s: string)
    ensures Subsequence(RemoveBlocks(s), s)
    decreases |s|
  {
    match NextBlock(s)
    case None =>
      assert "" + s + "" == s;
      PartIsSubsequence("", s, "");
    case Some((from, to)) =>
      RemoveBlocksIsSubsequence(s[to..]);
      GapIsSubsequence(RemoveBlocks(s[to..]), s, from, to);
  }

  /** The removal only deletes characters. */
  lemma OnlyDeletes(text: string)
    ensures Subsequence(StripReasoning(text), text)
  {
    var r := RemoveBlocks(text);
    RemoveBlocksIsSubsequence(text);
    var cut := CutUnclosed(r);
    assert r == "" + cut + r[|cut|..];
    PartIsSubsequence("", cut, r[|cut|..]);
    SubsequenceTransitive(cut, r, text);
    var left, right := PythonText.StripSplits(cut);
    PartIsSubsequence(left, StripReasoning(text), right);
    SubsequenceTransitive(StripReasoning(text), cut, text);
  }

  // ---- What exactly is deleted ----

  /** The first tag at or behind `i` is at `j`. */
  ghost predicate FirstTag(s: string, i: nat, tag: string, j: nat)
  {
    i <= j && TagAt(s, j, tag) && forall k :: i <= k < j ==> !TagAt(s, k, tag)
  }

  lemma FirstTagIsFound(s: string, i: nat, tag: string, j: nat)
    requires tag != "" && FirstTag(s, i, tag, j)
    ensures FindTag(s, i, tag) == Some(j)
  {
    assert FindTag(s, i, tag).Some?;
  }

  lemma FirstBlock(s: string, i: nat, j: nat)
    requires FindTag(s, 0, OPEN_TAG) == Some(i) && FindTag(s, i + |OPEN_TAG|, CLOSE_TAG) == Some(j)
    ensures NextBlock(s) == Some((i, j + |CLOSE_TAG|))
  {
  }

  lemma RemovesBlock(s: string, from: nat, to: nat)
    requires NextBlock(s) == Some((from, to))
    ensures RemoveBlocks(s) == s[..from] + RemoveBlocks(s[to..])
  {
  }

  /** From the first opening tag to the first closing tag behind it, exactly that goes, and the rest is treated the same
      way on its own. */
  lemma BlockIsRemoved(s: string, i: nat, j: nat)
    requires FirstTag(s, 0, OPEN_TAG, i) && FirstTag(s, i + |OPEN_TAG|, CLOSE_TAG, j)
    ensures RemoveBlocks(s) == s[..i] + RemoveBlocks(s[j + |CLOSE_TAG|..])
  {
    FirstTagIsFound(s, 0, OPEN_TAG, i);
    FirstTagIsFound(s, i + |OPEN_TAG|, CLOSE_TAG, j);
    FirstBlock(s, i, j);
    RemovesBlock(s, i, j + |CLOSE_TAG|);
  }

  /** An answer cut off in mid-thought is shown up to its first opening tag. */
  lemma UnclosedIsCut(text: string, i: nat)
    requires FirstTag(text, 0, OPEN_TAG, i)
    requires forall k :: i + |OPEN_TAG| <= k ==> !TagAt(text, k, CLOSE_TAG)
    ensures StripReasoning(text) == PythonText.Strip(text[..i])
  {
    FirstTagIsFound(text, 0, OPEN_TAG, i);
    assert FindTag(text, i + |OPEN_TAG|, CLOSE_TAG).None?;
    assert NextBlock(text).None?;
  }

  // ---- Texts with any number of blocks ----

  /** A block stands from `i` to the closing tag at `j`, the first block of the text. */
  ghost predicate BlockAt(s: string, i: nat, j: nat)
  {
    FirstTag(s, 0, OPEN_TAG, i) && FirstTag(s, i + |OPEN_TAG|, CLOSE_TAG, j)
  }

  ghost predicate NoBlock(s: string)
  {
    forall i: nat, j: nat :: !BlockAt(s, i, j)
  }

  /** The text consists of these pieces, with a block between any two of them and none in the last one. */
  ghost predicate Pieces(s: string, pieces: seq<string>)
    decreases |pieces|
  {
    && pieces != []
    && if |pieces| == 1 then s == pieces[0] && NoBlock(s)
       else exists i: nat, j: nat :: BlockAt(s, i, j)
              && pieces[0] == s[..i] && Pieces(s[j + |CLOSE_TAG|..], pieces[1..])
  }

  lemma NextBlockIsBlock(s: string)
    ensures NextBlock(s).Some? ==>
      NextBlock(s).value.1 >= 8 && BlockAt(s, NextBlock(s).value.0, NextBlock(s).value.1 - 8)
    ensures NextBlock(s).None? ==> NoBlock(s)
  {
    if NextBlock(s).None? {
      forall i: nat, j: nat
        ensures !BlockAt(s, i, j)
      {
        NoneMeansNoBlock(s, i, j);
      }
    }
  }

  lemma NoneMeansNoBlock(s: string, i: nat, j: nat)
    requires NextBlock(s).None?
    ensures !BlockAt(s, i, j)
  {
    if BlockAt(s, i, j) {
      FirstTagIsFound(s, 0, OPEN_TAG, i);
      FirstTagIsFound(s, i + |OPEN_TAG|, CLOSE_TAG, j);
      FirstBlock(s, i, j);
    }
  }

  /** Every text can be taken apart so. */
  lemma {:induction false} HasPieces(s: string) returns (pieces: seq<string>)
    ensures Pieces(s, pieces)
    decreases |s|
  {
    NextBlockIsBlock(s);
    match NextBlock(s)
    case None => pieces := [s];
    case Some((from, to)) =>
      var rest := HasPieces(s[to..]);
      pieces := [s[..from]] + rest;
      assert pieces[1..] == rest;
      assert BlockAt(s, from, to - 8) && pieces[0] == s[..from];
  }

  lemma NoBlockIsKept(s: string)
    requires NoBlock(s)
    ensures RemoveBlocks(s) == s
  {
    NextBlockIsBlock(s);
  }

  lemma FirstPiece(s: string, pieces: seq<string>) returns (i: nat, rest: string)
    requires |pieces| > 1 && Pieces(s, pieces)
    ensures i <= |s| && pieces[0] == s[..i] && Pieces(rest, pieces[1..])
    ensures RemoveBlocks(s) == s[..i] + RemoveBlocks(rest)
  {
    var j: nat;
    i, j :| BlockAt(s, i, j) && pieces[0] == s[..i] && Pieces(s[j + |CLOSE_TAG|..], pieces[1..]);
    rest := s[j + |CLOSE_TAG|..];
    BlockIsRemoved(s, i, j);
  }

  lemma {:induction false} RemovesAllBlocks(s: string, pieces: seq<string>)
    requires Pieces(s, pieces)
    ensures RemoveBlocks(s) == Concat(pieces)
    decreases |pieces|
  {
    if |pieces| == 1 {
      NoBlockIsKept(s);
      ConcatCons(s, []);
      assert pieces == [s] + [];
    } else {
      var i, rest := FirstPiece(s, pieces);
      RemovesAllBlocks(rest, pieces[1..]);
      ConcatCons(pieces[0], pieces[1..]);
      assert [pieces[0]] + pieces[1..] == pieces;
    }
  }

  lemma CutsAtTag(s: string)
    ensures TagFree(s) ==> CutUnclosed(s) == s
    ensures forall i: nat | FirstTag(s, 0, OPEN_TAG, i) :: CutUnclosed(s) == s[..i]
  {
    if TagFree(s) {
      TagFreeIsUntouched(s);
    }
    forall i: nat | FirstTag(s, 0, OPEN_TAG, i)
      ensures CutUnclosed(s) == s[..i]
    {
      FirstTagIsFound(s, 0, OPEN_TAG, i);
    }
  }

  /** Exactly what is shown of an answer, for every answer: the pieces between its blocks, one behind the other, without
      the blanks around them; and if an opening tag is left in them, what stands in front of the first one. */
  lemma ExactlyWhatIsShown(s: string, pieces: seq<string>)
    requires Pieces(s, pieces)
    ensures TagFree(Concat(pieces)) ==> StripReasoning(s) == PythonText.Strip(Concat(pieces))
    ensures forall i: nat | FirstTag(Concat(pieces), 0, OPEN_TAG, i) ::
      StripReasoning(s) == PythonText.Strip(Concat(pieces)[..i])
  {
    RemovesAllBlocks(s, pieces);
    CutsAtTag(Concat(pieces));
  }

  /** One block between two pieces that have no tag, not even where they meet. */
  lemma OneBlockIsRemoved(s: string, i: nat, j: nat)
    requires FirstTag(s, 0, OPEN_TAG, i) && FirstTag(s, i + |OPEN_TAG|, CLOSE_TAG, j)
    requires TagFree(s[..i] + s[j + |CLOSE_TAG|..])
    ensures StripReasoning(s) == PythonText.Strip(s[..i] + s[j + |CLOSE_TAG|..])
  {
    var rest := s[j + |CLOSE_TAG|..];
    assert s[..i] + rest + "" == s[..i] + rest;
    PartIsTagFree(s[..i], rest, "");
    BlockIsRemoved(s, i, j);
    TagFreeIsUntouched(rest);
    TagFreeIsUntouched(s[..i] + rest);
  }

  // ---- What a tag is ----

  /** Letter case is ignored as Python does it: a dotless or a dotted capital I stands for an i, and the Kelvin sign for
      a k. */
  predicate SpellsThink(s: string, i: int)
    requires 0 <= i && i + 5 <= |s|
  {
    && (s[i] == 't' || s[i] == 'T') && (s[i + 1] == 'h' || s[i + 1] == 'H')
    && (s[i + 2] == 'i' || s[i + 2] == 'I' || s[i + 2] as int == 0x130 || s[i + 2] as int == 0x131)
    && (s[i + 3] == 'n' || s[i + 3] == 'N') && (s[i + 4] == 'k' || s[i + 4] == 'K' || s[i + 4] as int == 0x212A)
  }

  /** What a tag is, in any text. */
  lemma TagIsSpelled(s: string, i: int)
    ensures TagAt(s, i, OPEN_TAG) <==>
      0 <= i && i + 7 <= |s| && s[i] == '<' && SpellsThink(s, i + 1) && s[i + 6] == '>'
    ensures TagAt(s, i, CLOSE_TAG) <==>
      0 <= i && i + 8 <= |s| && s[i] == '<' && s[i + 1] == '/' && SpellsThink(s, i + 2) && s[i + 7] == '>'
  {
    OpenIsSpelled(s, i, OPEN_TAG);
    CloseIsSpelled(s, i, CLOSE_TAG);
  }

  lemma OpenIsSpelled(s: string, i: int, tag: string)
    requires tag == OPEN_TAG
    ensures TagAt(s, i, tag) <==>
      0 <= i && i + 7 <= |s| && s[i] == '<' && SpellsThink(s, i + 1) && s[i + 6] == '>'
  {
    assert tag[0] == '<' && tag[1] == 't' && tag[2] == 'h' && tag[3] == 'i' && tag[4] == 'n' && tag[5] == 'k';
    assert tag[6] == '>';
    if 0 <= i && i + 7 <= |s| && s[i] == '<' && SpellsThink(s, i + 1) && s[i + 6] == '>' {
      forall k | 0 <= k < 7
        ensures CaseMatch(tag[k], s[i + k])
      {
        assert k == 0 || k == 1 || k == 2 || k == 3 || k == 4 || k == 5 || k == 6;
      }
    }
  }

  lemma CloseIsSpelled(s: string, i: int, tag: string)
    requires tag == CLOSE_TAG
    ensures TagAt(s, i, tag) <==>
      0 <= i && i + 8 <= |s| && s[i] == '<' && s[i + 1] == '/' && SpellsThink(s, i + 2) && s[i + 7] == '>'
  {
    assert tag[0] == '<' && tag[1] == '/' && tag[2] == 't' && tag[3] == 'h' && tag[4] == 'i' && tag[5] == 'n';
    assert tag[6] == 'k' && tag[7] == '>';
    if 0 <= i && i + 8 <= |s| && s[i] == '<' && s[i + 1] == '/' && SpellsThink(s, i + 2) && s[i + 7] == '>' {
      forall k | 0 <= k < 8
        ensures CaseMatch(tag[k], s[i + k])
      {
        assert k == 0 || k == 1 || k == 2 || k == 3 || k == 4 || k == 5 || k == 6 || k == 7;
      }
    }
  }

  /** In ASCII text, a tag is the word in any letter case. */
  lemma TagInAnyCase(s: string, i: nat)
    requires forall k :: 0 <= k < |s| ==> s[k] as int < 128
    ensures TagAt(s, i, OPEN_TAG) <==> i + 7 <= |s| && Identifiers.Upper(s[i..i + 7]) == "<THINK>"
    ensures TagAt(s, i, CLOSE_TAG) <==> i + 8 <= |s| && Identifiers.Upper(s[i..i + 8]) == "</THINK>"
  {
    CaseMatchIsUpper(s, i, OPEN_TAG, "<THINK>");
    CaseMatchIsUpper(s, i, CLOSE_TAG, "</THINK>");
  }

  lemma CaseMatchIsUpper(s: string, i: nat, tag: string, upper: string)
    requires forall k :: 0 <= k < |s| ==> s[k] as int < 128
    requires |upper| == |tag| && Identifiers.Upper(tag) == upper
    requires forall k :: 0 <= k < |tag| ==> !('A' <= tag[k] <= 'Z')
    ensures TagAt(s, i, tag) <==> i + |tag| <= |s| && Identifiers.Upper(s[i..i + |tag|]) == upper
  {
    if i + |tag| <= |s| {
      var part := s[i..i + |tag|];
      forall k | 0 <= k < |tag|
        ensures CaseMatch(tag[k], s[i + k]) <==> Identifiers.Upper(part)[k] == upper[k]
      {
        assert part[k] == s[i + k] && Identifiers.Upper(tag)[k] == upper[k];
      }
      if TagAt(s, i, tag) {
        assert Identifiers.Upper(part) == upper;
      }
      if Identifiers.Upper(part) == upper {
        assert TagAt(s, i, tag);
      }
    }
  }
}
