/**
 * Splitting text into words the way Python's `str.split()` (no separator
 * argument) does: the words are the maximal runs of non-whitespace characters,
 * in order, and leading, trailing and repeated whitespace yields no empty word.
 */
module Text {

  /** The characters for which Python's `str.isspace()` holds, by code
      point: the ASCII controls 0x09-0x0D and 0x1C-0x1F, the space 0x20, and
      the Unicode spaces and line/paragraph separators. */
  predicate IsWhitespace(c: char)
  {
    var n := c as int;
    || 0x09 <= n <= 0x0D
    || 0x1C <= n <= 0x20
    || n == 0x85
    || n == 0xA0
    || n == 0x1680
    || 0x2000 <= n <= 0x200A
    || n == 0x2028
    || n == 0x2029
    || n == 0x202F
    || n == 0x205F
    || n == 0x3000
  }

  predicate AllWhitespace(s: string)
  {
    forall i :: 0 <= i < |s| ==> IsWhitespace(s[i])
  }

  predicate NoWhitespace(s: string)
  {
    forall i :: 0 <= i < |s| ==> !IsWhitespace(s[i])
  }

  /** A word: a non-empty string without whitespace. */
  predicate IsWord(w: string)
  {
    w != [] && NoWhitespace(w)
  }

  /** The scan behind `str.split()`: `word` holds the characters of the word
      being read; whitespace ends it (an empty word is dropped), any other
      character extends it, and the end of the text ends it too. */
  function SplitFrom(s: string, word: string): seq<string>
  {
    if s == [] then
      (if word == [] then [] else [word])
    else if IsWhitespace(s[0]) then
      (if word == [] then [] else [word]) + SplitFrom(s[1..], [])
    else
      SplitFrom(s[1..], word + [s[0]])
  }

  /** Reference count: the number of positions of `s` holding a
      non-whitespace character preceded by whitespace or by the start of the
      text. `afterSpace` says whether the position just before `s` counts as
      whitespace (it does at the start of the text). */
  function RunStarts(s: string, afterSpace: bool): nat
  {
    if s == [] then 0
    else (if afterSpace && !IsWhitespace(s[0]) then 1 else 0) + RunStarts(s[1..], IsWhitespace(s[0]))
  }

  /** The non-whitespace characters of `s`, in order. */
  function NonSpace(s: string): string
  {
    if s == [] then [] else (if IsWhitespace(s[0]) then [] else [s[0]]) + NonSpace(s[1..])
  }

  function Concat(words: seq<string>): string
  {
    if words == [] then [] else words[0] + Concat(words[1..])
  }

  lemma {:induction false} ConcatCons(w: string, words: seq<string>)
    ensures Concat([w] + words) == w + Concat(words)
  {
    assert ([w] + words)[1..] == words;
  }

  /** Every piece the scan returns is a word. */
  lemma {:induction false} SplitFromGivesWords(s: string, word: string)
    requires NoWhitespace(word)
    ensures forall i :: 0 <= i < |SplitFrom(s, word)| ==> IsWord(SplitFrom(s, word)[i])
  {
    if s != [] {
      if IsWhitespace(s[0]) {
        SplitFromGivesWords(s[1..], []);
      } else {
        SplitFromGivesWords(s[1..], word + [s[0]]);
      }
    }
  }

  /** The scan yields one piece per run start, plus the word in progress. */
  lemma {:induction false} SplitFromCountsRuns(s: string, word: string)
    ensures |SplitFrom(s, word)| == (if word == [] then 0 else 1) + RunStarts(s, word == [])
  {
    if s != [] {
      if IsWhitespace(s[0]) {
        SplitFromCountsRuns(s[1..], []);
      } else {
        SplitFromCountsRuns(s[1..], word + [s[0]]);
      }
    }
  }

  /** The scan neither loses nor invents a non-whitespace character. */
  lemma {:induction false} SplitFromKeepsText(s: string, word: string)
    ensures Concat(SplitFrom(s, word)) == word + NonSpace(s)
  {
    if s == [] {
      if word != [] {
        ConcatCons(word, []);
      }
    } else if IsWhitespace(s[0]) {
      SplitFromKeepsText(s[1..], []);
      assert NonSpace(s) == NonSpace(s[1..]);
      if word != [] {
        ConcatCons(word, SplitFrom(s[1..], []));
      } else {
        assert SplitFrom(s, word) == SplitFrom(s[1..], []);
      }
    } else {
      SplitFromKeepsText(s[1..], word + [s[0]]);
      assert word + NonSpace(s) == (word + [s[0]]) + NonSpace(s[1..]);
    }
  }

  /** A word in progress is never dropped. */
  lemma {:induction false} SplitFromKeepsWord(s: string, word: string)
    requires word != []
    ensures SplitFrom(s, word) != []
  {
    if s != [] && !IsWhitespace(s[0]) {
      SplitFromKeepsWord(s[1..], word + [s[0]]);
    }
  }

  lemma {:induction false} SplitFromTrailingSpace(s: string, word: string, c: char)
    requires IsWhitespace(c)
    ensures SplitFrom(s + [c], word) == SplitFrom(s, word)
  {
    if s == [] {
      assert [c][1..] == [];
    } else {
      assert (s + [c])[1..] == s[1..] + [c];
      if IsWhitespace(s[0]) {
        SplitFromTrailingSpace(s[1..], [], c);
      } else {
        SplitFromTrailingSpace(s[1..], word + [s[0]], c);
      }
    }
  }

  lemma {:induction false} RunStartsBound(s: string, afterSpace: bool)
    ensures 2 * RunStarts(s, afterSpace) <= |s| + (if afterSpace then 1 else 0)
  {
    if s != [] {
      RunStartsBound(s[1..], IsWhitespace(s[0]));
    }
  }

  /** `s.split()`: non-empty runs without whitespace which, joined
      together, are the text with its whitespace removed. */
  function Split(s: string): (words: seq<string>)
    ensures forall i :: 0 <= i < |words| ==> IsWord(words[i])
    ensures Concat(words) == NonSpace(s)
  {
    SplitFromGivesWords(s, []);
    SplitFromKeepsText(s, []);
    SplitFrom(s, [])
  }

  /** `len(s.split())`: one word per maximal run of non-whitespace
      characters. */
  function WordCount(s: string): (n: nat)
    ensures n == RunStarts(s, true)
  {
    SplitFromCountsRuns(s, []);
    |Split(s)|
  }

  /** `s.split()` is empty exactly when `s` is empty or all whitespace. */
  lemma {:induction false} NoWordsIffAllWhitespace(s: string)
    ensures WordCount(s) == 0 <==> AllWhitespace(s)
  {
    if s != [] {
      if IsWhitespace(s[0]) {
        NoWordsIffAllWhitespace(s[1..]);
        assert Split(s) == Split(s[1..]);
        assert AllWhitespace(s) <==> AllWhitespace(s[1..]) by {
          assert forall i :: 0 < i < |s| ==> s[i] == s[1..][i - 1];
        }
      } else {
        assert [] + [s[0]] == [s[0]];
        SplitFromKeepsWord(s[1..], [s[0]]);
      }
    }
  }

  /** A word needs a character of its own and two words need whitespace
      between them, so a text of length n has at most (n + 1) / 2 words; in
      particular never more words than characters. */
  lemma WordCountBound(s: string)
    ensures 2 * WordCount(s) <= |s| + 1
    ensures WordCount(s) <= |s|
  {
    RunStartsBound(s, true);
  }

  /** Appending whitespace, such as the newline the text widget keeps at the
      end, does not change the words. */
  lemma TrailingSpaceKeepsWords(s: string, c: char)
    requires IsWhitespace(c)
    ensures Split(s + [c]) == Split(s)
    ensures WordCount(s + [c]) == WordCount(s)
  {
    SplitFromTrailingSpace(s, [], c);
  }

  /** Characters without whitespace just extend the word in progress. */
  lemma {:induction false} SplitFromWord(w: string, rest: string, word: string)
    requires NoWhitespace(w)
    ensures SplitFrom(w + rest, word) == SplitFrom(rest, word + w)
  {
    if w == [] {
      assert w + rest == rest && word + w == word;
    } else {
      assert (w + rest)[0] == w[0] && (w + rest)[1..] == w[1..] + rest;
      SplitFromWord(w[1..], rest, word + [w[0]]);
      assert word + [w[0]] + w[1..] == word + w;
    }
  }

  /** The scan on "hello world". */
  lemma HelloWorldScan()
    ensures SplitFrom("hello world", []) == ["hello", "world"]
  {
    assert NoWhitespace("hello") && NoWhitespace("world");
    assert "hello world" == "hello" + " world";
    SplitFromWord("hello", " world", "");
    assert "" + "hello" == "hello";
    assert " world"[0] == ' ' && " world"[1..] == "world";
    assert "world" == "world" + "";
    SplitFromWord("world", "", "");
    assert "" + "world" == "world";
  }

  lemma HelloWorld()
    ensures Split("hello world") == ["hello", "world"]
    ensures WordCount("hello world") == 2
  {
    HelloWorldScan();
  }
}
