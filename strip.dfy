/**
 * `strip_str`: trims a generated line to its alphabetic bounds, keeping one
 * character after the last letter (typically a closing `?`).
 */
module Strip {
  import opened Common
  import opened Text

  predicate NoLetter(s: string)
  {
    forall k :: 0 <= k < |s| ==> !IsAlpha(s[k])
  }

  /** `i` is the index of the first letter of `s`. */
  predicate IsFirstLetter(s: string, i: int)
  {
    0 <= i < |s| && IsAlpha(s[i]) && forall k :: 0 <= k < i ==> !IsAlpha(s[k])
  }

  /** `j` is the index of the last letter of `s`. */
  predicate IsLastLetter(s: string, j: int)
  {
    0 <= j < |s| && IsAlpha(s[j]) && forall k :: j < k < |s| ==> !IsAlpha(s[k])
  }

  function FirstLetter(s: string): (r: Option<nat>)
    ensures r.None? <==> NoLetter(s)
    ensures r.Some? ==> IsFirstLetter(s, r.value)
  {
    if s == [] then None
    else if IsAlpha(s[0]) then Some(0)
    else match FirstLetter(s[1..])
      case None => None
      case Some(k) => Some(k + 1)
  }

  function LastLetter(s: string): (r: Option<nat>)
    ensures r.None? <==> NoLetter(s)
    ensures r.Some? ==> IsLastLetter(s, r.value)
  {
    if s == [] then None
    else if IsAlpha(s[|s| - 1]) then Some(|s| - 1)
    else LastLetter(s[..|s| - 1])
  }

  /** What `strip_str` returns, computed from the first and last letter. */
  function StripStr(s: string): string
  {
    match FirstLetter(s)
    case None => s
    case Some(l) =>
      var last := LastLetter(s).value;
      if last == l then s[l..] else s[l..Min(last + 2, |s|)]
  }

  /**
   * The declarative reading of `strip_str`: the whole string when there is no
   * letter, the tail from a lone letter, and otherwise from the first letter
   * to one character past the last letter, clamped to the string.
   */
  lemma StripStrSpec(s: string)
    ensures NoLetter(s) ==> StripStr(s) == s
    ensures forall i :: IsFirstLetter(s, i) && IsLastLetter(s, i) ==> StripStr(s) == s[i..]
    ensures forall i, j :: IsFirstLetter(s, i) && IsLastLetter(s, j) && i < j
                          ==> StripStr(s) == s[i..Min(j + 2, |s|)]
  {
    forall i | IsFirstLetter(s, i) && IsLastLetter(s, i) {
      StripOneLetter(s, i);
    }
    forall i, j | IsFirstLetter(s, i) && IsLastLetter(s, j) && i < j {
      StripSpan(s, i, j);
    }
  }

  /** A lone letter: the result runs from it to the end of the string. */
  lemma StripOneLetter(s: string, i: int)
    requires IsFirstLetter(s, i) && IsLastLetter(s, i)
    ensures StripStr(s) == s[i..]
  {
    FirstLetterIs(s, i);
    LastLetterIs(s, i);
  }

  /** Several letters: from the first to one past the last, clamped to the string. */
  lemma StripSpan(s: string, i: int, j: int)
    requires IsFirstLetter(s, i) && IsLastLetter(s, j) && i < j
    ensures StripStr(s) == s[i..Min(j + 2, |s|)]
  {
    FirstLetterIs(s, i);
    LastLetterIs(s, j);
  }

  /** A line has a letter after stripping exactly when it had one before. */
  lemma StripKeepsLetters(s: string)
    ensures HasLetter(StripStr(s)) <==> HasLetter(s)
  {
    match FirstLetter(s)
    case None =>
    case Some(l) =>
      var last := LastLetter(s).value;
      assert IsAlpha(s[last]);
      var e := if last == l then |s| else Min(last + 2, |s|);
      assert l < e <= |s|;
      assert StripStr(s) == s[l..e];
      assert IsAlpha(StripStr(s)[0]);
      if HasLetter(StripStr(s)) {
        var k :| 0 <= k < |StripStr(s)| && IsAlpha(StripStr(s)[k]);
        assert StripStr(s)[k] == s[l + k];
      }
  }

  /** The loop of `strip_str`, step by step. */
  method Strip(s: string) returns (res: string)
    ensures res == StripStr(s)
  {
    var l, r := 0, |s| - 1;
    var begFound := false;
    for i := 0 to |s|
      invariant begFound ==> l < i && IsFirstLetter(s, l)
      invariant !begFound ==> l == 0 && r == |s| - 1 && forall k :: 0 <= k < i ==> !IsAlpha(s[k])
      invariant begFound ==>
                  ((r == |s| - 1 && forall k :: l < k < i ==> !IsAlpha(s[k]))
                   || (l < r < i && IsAlpha(s[r]) && forall k :: r < k < i ==> !IsAlpha(s[k])))
    {
      if IsAlpha(s[i]) {
        if !begFound {
          l := i;
          begFound := true;
        } else {
          r := i;
        }
      }
    }
    StripFromBounds(s, l, r, begFound);
    r := r + 2;
    res := s[l..Min(r, |s|)];
  }

  /** The bounds the loop of `strip_str` ends with select `StripStr(s)`. */
  lemma StripFromBounds(s: string, l: nat, r: int, begFound: bool)
    requires !begFound ==> l == 0 && r == |s| - 1 && NoLetter(s)
    requires begFound ==> IsFirstLetter(s, l)
    requires begFound ==>
               ((r == |s| - 1 && forall k :: l < k < |s| ==> !IsAlpha(s[k]))
                || (l < r && IsLastLetter(s, r)))
    ensures l <= Min(r + 2, |s|)
    ensures s[l..Min(r + 2, |s|)] == StripStr(s)
  {
    if !begFound {
      assert FirstLetter(s) == None;
    } else if IsLastLetter(s, l) {
      StripOneLetter(s, l);
      assert Min(r + 2, |s|) == |s|;
    } else {
      StripSpan(s, l, r);
    }
  }

  /** The first letter is unique, so `FirstLetter` finds it. */
  lemma FirstLetterIs(s: string, i: int)
    requires IsFirstLetter(s, i)
    ensures FirstLetter(s) == Some(i)
  {
    assert !NoLetter(s) by { assert IsAlpha(s[i]); }
    var v := FirstLetter(s).value;
    assert IsFirstLetter(s, v);
    assert !(v < i) by { assert IsAlpha(s[v]); }
    assert !(i < v) by { assert IsAlpha(s[i]); }
  }

  /** The last letter is unique, so `LastLetter` finds it. */
  lemma LastLetterIs(s: string, j: int)
    requires IsLastLetter(s, j)
    ensures LastLetter(s) == Some(j)
  {
    assert !NoLetter(s) by { assert IsAlpha(s[j]); }
    var v := LastLetter(s).value;
    assert IsLastLetter(s, v);
    assert !(v < j) by { assert IsAlpha(s[j]); }
    assert !(j < v) by { assert IsAlpha(s[v]); }
  }

  /** A generated question line carrying list numbering and a line break. */
  const NumberedQuestion: string := "1. What is Raft?\n"

  lemma NumberedQuestionFirstLetter()
    ensures FirstLetter(NumberedQuestion) == Some(3)
  {
    assert IsFirstLetter(NumberedQuestion, 3);
  }

  lemma NumberedQuestionLastLetter()
    ensures LastLetter(NumberedQuestion) == Some(14)
  {
    assert IsLastLetter(NumberedQuestion, 14);
  }

  /** A numbered question line loses its numbering and its trailing newline but keeps its `?`. */
  lemma StripNumberedQuestion()
    ensures StripStr(NumberedQuestion) == "What is Raft?"
  {
    NumberedQuestionFirstLetter();
    NumberedQuestionLastLetter();
    assert NumberedQuestion[3..16] == "What is Raft?";
  }
}
