/**
 * `len(text.split())` for Python's `str.split()` with no separator: the number
 * of maximal runs of non-whitespace characters, where whitespace is what
 * `str.isspace()` accepts.
 */
module Words {

  /** The characters Python's `str.split()` splits on (the `str.isspace()` set). */
  predicate IsSpace(c: char) {
    || c == ' '
    || ('\t' <= c <= '\r')
    || ('\U{1C}' <= c <= '\U{1F}')
    || c == '\U{85}'
    || c == '\U{A0}'
    || c == '\U{1680}'
    || ('\U{2000}' <= c <= '\U{200A}')
    || c == '\U{2028}'
    || c == '\U{2029}'
    || c == '\U{202F}'
    || c == '\U{205F}'
    || c == '\U{3000}'
  }

  /** A word begins at position `i`: a non-space character at the start or after a space. */
  predicate BeginsWord(s: string, i: nat)
    requires i < |s|
  {
    !IsSpace(s[i]) && (i == 0 || IsSpace(s[i - 1]))
  }

  /** The number of positions at which a word begins, counted left to right. */
  function WordCount(s: string): nat
    decreases |s|
  {
    if |s| == 0 then 0
    else WordCount(s[..|s| - 1]) + (if BeginsWord(s, |s| - 1) then 1 else 0)
  }

  /** A non-space character anywhere means there is at least one word. */
  lemma {:induction false} NonSpaceMeansWord(s: string, i: nat)
    requires i < |s| && !IsSpace(s[i])
    ensures WordCount(s) >= 1
    decreases |s|
  {
    var init := s[..|s| - 1];
    if i < |s| - 1 {
      NonSpaceMeansWord(init, i);
    } else if !BeginsWord(s, i) {
      NonSpaceMeansWord(init, i - 1);
    }
  }

  /** All-whitespace strings have no words. */
  lemma {:induction false} BlankHasNoWords(s: string)
    requires forall i | 0 <= i < |s| :: IsSpace(s[i])
    ensures WordCount(s) == 0
    decreases |s|
  {
    if |s| > 0 {
      BlankHasNoWords(s[..|s| - 1]);
    }
  }

  /** A string has no words exactly when it is all whitespace (the empty string included). */
  lemma NoWordsIffBlank(s: string)
    ensures WordCount(s) == 0 <==> forall i | 0 <= i < |s| :: IsSpace(s[i])
  {
    if forall i | 0 <= i < |s| :: IsSpace(s[i]) {
      BlankHasNoWords(s);
    } else {
      var i :| 0 <= i < |s| && !IsSpace(s[i]);
      NonSpaceMeansWord(s, i);
    }
  }

  /** A non-empty run without whitespace is one word. */
  lemma {:induction false} SingleWord(w: string)
    requires |w| > 0
    requires forall i | 0 <= i < |w| :: !IsSpace(w[i])
    ensures WordCount(w) == 1
    decreases |w|
  {
    var init := w[..|w| - 1];
    if |init| > 0 {
      SingleWord(init);
    }
  }

  /**
   * Words counted in two strings add up when they cannot merge: one of them is
   * empty, or whitespace separates them at the seam.
   */
  lemma {:induction false} WordCountConcat(s: string, t: string)
    requires |s| == 0 || |t| == 0 || IsSpace(s[|s| - 1]) || IsSpace(t[0])
    ensures WordCount(s + t) == WordCount(s) + WordCount(t)
    decreases |t|
  {
    if |t| == 0 {
      assert s + t == s;
    } else {
      var init := t[..|t| - 1];
      if |init| == 0 {
        assert WordCount(init) == 0;
      } else {
        assert init[0] == t[0];
      }
      WordCountConcat(s, init);
      assert (s + t)[..|s + t| - 1] == s + init;
      var k := |s + t| - 1;
      assert (s + t)[k] == t[|t| - 1];
      if |t| > 1 {
        assert (s + t)[k - 1] == t[|t| - 2];
      } else if |s| > 0 {
        assert (s + t)[k - 1] == s[|s| - 1];
      }
      assert BeginsWord(s + t, k) == BeginsWord(t, |t| - 1);
    }
  }
}
