/** Words as the wrapper sees them: maximal runs of characters other than the
    space and the line break. The wrapper skips spaces, treats a line break as
    a forced break and reads everything else up to the next space or line break
    as one word (CircleText.cpp, the scanning loops of both passes). */
module WordRuns {

  /** The two characters that end a word. */
  predicate IsSep(c: char)
  {
    c == ' ' || c == '\n'
  }

  ghost predicate SepFree(s: string)
  {
    forall i :: 0 <= i < |s| ==> !IsSep(s[i])
  }

  /** q splits s between words, never inside one. */
  ghost predicate AtBoundary(s: string, q: int)
  {
    0 <= q <= |s| && (q == 0 || q == |s| || IsSep(s[q - 1]) || IsSep(s[q]))
  }

  /** Where the run of word characters that ends s begins (|s| when s ends
      with a separator or is empty). */
  function TrailingWordStart(s: string): (k: nat)
    ensures k <= |s|
    ensures k == 0 || IsSep(s[k - 1])
    ensures forall j :: k <= j < |s| ==> !IsSep(s[j])
  {
    if s == [] || IsSep(s[|s| - 1]) then |s| else TrailingWordStart(s[..|s| - 1])
  }

  /** The words of s, in order. */
  function Words(s: string): seq<string>
    decreases |s|
  {
    if s == [] then []
    else if IsSep(s[|s| - 1]) then Words(s[..|s| - 1])
    else
      var k := TrailingWordStart(s);
      Words(s[..k]) + [s[k..]]
  }

  /** Each word followed by exactly one space: the text as it reads when every
      run of separators is one space and a space closes the last word. */
  function Spaced(ws: seq<string>): string
  {
    if ws == [] then [] else Spaced(ws[..|ws| - 1]) + ws[|ws| - 1] + " "
  }

  /** Every word is non-empty and holds no separator. */
  lemma {:induction false} WordsAreWords(s: string)
    ensures forall w :: w in Words(s) ==> w != [] && SepFree(w)
    decreases |s|
  {
    if s == [] {
    } else if IsSep(s[|s| - 1]) {
      WordsAreWords(s[..|s| - 1]);
    } else {
      var k := TrailingWordStart(s);
      WordsAreWords(s[..k]);
    }
  }

  /** A separator added at the end starts no word. */
  lemma WordsAppendSep(s: string, c: char)
    requires IsSep(c)
    ensures Words(s + [c]) == Words(s)
  {
    assert (s + [c])[..|s|] == s;
  }

  lemma {:induction false} TrailingWordStartAppend(s: string, w: string)
    requires s == [] || IsSep(s[|s| - 1])
    requires SepFree(w)
    ensures TrailingWordStart(s + w) == |s|
    decreases |w|
  {
    if w == [] {
      assert s + w == s;
    } else {
      var w' := w[..|w| - 1];
      assert (s + w)[..|s + w| - 1] == s + w';
      TrailingWordStartAppend(s, w');
    }
  }

  /** A run of word characters added after a separator is one more word. */
  lemma WordsAppendWord(s: string, w: string)
    requires s == [] || IsSep(s[|s| - 1])
    requires w != [] && SepFree(w)
    ensures Words(s + w) == Words(s) + [w]
  {
    TrailingWordStartAppend(s, w);
    assert (s + w)[..|s|] == s;
    assert (s + w)[|s|..] == w;
  }

  /** Cutting the text between words keeps the words before the cut, in order. */
  lemma {:induction false} WordsPrefix(s: string, q: int)
    requires AtBoundary(s, q)
    ensures Words(s[..q]) <= Words(s)
    decreases |s|
  {
    if q == |s| {
      assert s[..q] == s;
    } else if IsSep(s[|s| - 1]) {
      var s' := s[..|s| - 1];
      assert s'[..q] == s[..q];
      assert AtBoundary(s', q);
      WordsPrefix(s', q);
    } else {
      var k := TrailingWordStart(s);
      assert q <= k;
      var s' := s[..k];
      assert s'[..q] == s[..q];
      if q < k {
        assert AtBoundary(s', q);
        WordsPrefix(s', q);
      } else {
        assert s' == s[..q];
      }
    }
  }

  /** A text has no words exactly when it is made of separators only. */
  lemma {:induction false} NoWordsIffAllSeps(s: string)
    ensures Words(s) == [] <==> forall j :: 0 <= j < |s| ==> IsSep(s[j])
    decreases |s|
  {
    if s == [] {
    } else if IsSep(s[|s| - 1]) {
      var s' := s[..|s| - 1];
      NoWordsIffAllSeps(s');
      assert forall j :: 0 <= j < |s'| ==> s'[j] == s[j];
    } else {
      assert !IsSep(s[|s| - 1]);
    }
  }

  /** Spacing a prefix of the words gives a prefix of the spaced text. */
  lemma {:induction false} SpacedPrefix(a: seq<string>, b: seq<string>)
    requires a <= b
    ensures Spaced(a) <= Spaced(b)
    decreases |b|
  {
    if |a| < |b| {
      var b' := b[..|b| - 1];
      assert a <= b';
      SpacedPrefix(a, b');
    } else {
      assert a == b;
    }
  }

  /** The spaced form of the words of text cut at a boundary is a prefix of
      the spaced form of all its words. */
  lemma SpacedWordsPrefix(s: string, q: int)
    requires AtBoundary(s, q)
    ensures Spaced(Words(s[..q])) <= Spaced(Words(s))
  {
    WordsPrefix(s, q);
    SpacedPrefix(Words(s[..q]), Words(s));
  }
}
