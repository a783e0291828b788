/** Words in any letter case, letter by letter. */
module Spelling {
  import opened Text

  /** The small letter itself, its capital 32 places further up, or the Kelvin sign for a k. */
  predicate IsLetter(c: char, letter: char) {
    c == letter || c as int == letter as int - 32 || (letter == 'k' && c as int == 0x212A)
  }

  /** The text is the word, with any of its letters as capitals. */
  predicate Spells(text: string, word: string) {
    |text| == |word| && forall i :: 0 <= i < |text| ==> IsLetter(text[i], word[i])
  }

  predicate IsSmall(word: string) {
    forall i :: 0 <= i < |word| ==> 'a' <= word[i] <= 'z'
  }

  lemma LetterLowers(c: char, letter: char)
    requires 'a' <= letter <= 'z'
    ensures LowerChar(c) == [letter] <==> IsLetter(c, letter)
    ensures |LowerChar(c)| == 1 || (|LowerChar(c)| == 2 && LowerChar(c)[1] == '\U{0307}')
  {
  }

  lemma SumIsWord(first: string, rest: string, word: string)
    requires |first| == 1 || (|first| == 2 && first[1] == '\U{0307}')
    requires word != "" && IsSmall(word)
    ensures first + rest == word <==> first == [word[0]] && rest == word[1..]
  {
    var sum := first + rest;
    assert [word[0]] + word[1..] == word;
    assert sum[0] == first[0];
    if |first| == 2 {
      assert sum[1] == '\U{0307}';
    } else {
      assert sum[1..] == rest;
    }
  }

  lemma FirstLetter(text: string, word: string)
    requires text != "" && word != "" && IsSmall(word)
    ensures Lower(text) == word <==> IsLetter(text[0], word[0]) && Lower(text[1..]) == word[1..]
  {
    LetterLowers(text[0], word[0]);
    SumIsWord(LowerChar(text[0]), Lower(text[1..]), word);
  }

  /** A text lowers to a word of small letters exactly when it spells it. */
  lemma {:induction false} SpellingIsLowering(text: string, word: string)
    requires IsSmall(word)
    ensures Spells(text, word) <==> Lower(text) == word
  {
    if text != "" && word != "" {
      SpellingIsLowering(text[1..], word[1..]);
      FirstLetter(text, word);
      assert Spells(text, word) ==> Spells(text[1..], word[1..]);
    } else if text != "" {
      assert Lower(text)[0] == LowerChar(text[0])[0];
    }
  }
}
