/** Slugs of names made of words, character by character: which characters stand for themselves,
    which separate, which are dropped. */
module SlugWords {
  import opened Text
  import opened Slug

  /** A word of the letters a to z and the digits. */
  predicate IsPlain(w: string) {
    w != "" && forall i :: 0 <= i < |w| ==> 'a' <= w[i] <= 'z' || '0' <= w[i] <= '9'
  }

  /** The characters that separate words: blank, tab, line ends, the dash, and the further white
      space of Unicode. */
  predicate IsGapChar(c: char) {
    || c == ' ' || c == '\t' || c == '\n' || c == '\r' || c == '-'
    || c as int in {0x0B, 0x0C, 0x1C, 0x1D, 0x1E, 0x1F, 0x85, 0xA0, 0x1680, 0x2028, 0x2029, 0x202F, 0x205F, 0x3000}
    || 0x2000 <= c as int <= 0x200A
  }

  predicate IsGap(g: string) {
    forall i :: 0 <= i < |g| ==> IsGapChar(g[i])
  }

  // ---- Pieces of words and gaps ----

  lemma GapCharsSeparate(c: char)
    ensures IsGapChar(c) <==> IsSeparator(c)
  {
  }

  lemma PlainIsWord(w: string)
    requires IsPlain(w)
    ensures IsWord(w)
  {
  }

  lemma {:induction false} LowerConcat(a: string, b: string)
    ensures Lower(a + b) == Lower(a) + Lower(b)
  {
    if a == "" {
      assert a + b == b;
    } else {
      assert (a + b)[1..] == a[1..] + b;
      LowerConcat(a[1..], b);
    }
  }

  /** What is left of a name before it is split. */
  function Filtered(name: string): string {
    KeepAllowed(Lower(name))
  }

  lemma FilteredConcat(a: string, b: string)
    ensures Filtered(a + b) == Filtered(a) + Filtered(b)
  {
    LowerConcat(a, b);
    KeepConcat(Lower(a), Lower(b));
  }

  lemma {:induction false} PlainIsKept(w: string)
    requires forall c :: c in w ==> IsWordChar(c)
    ensures Filtered(w) == w
  {
    LowerIsIdentity(w);
  }

  lemma {:induction false} GapIsKept(g: string)
    requires IsGap(g)
    ensures Filtered(g) == g
  {
    if g != "" {
      GapIsKept(g[1..]);
      GapCharsSeparate(g[0]);
      OneChar(g[0]);
      assert g == [g[0]] + g[1..];
      FilteredConcat([g[0]], g[1..]);
    }
  }

  lemma OneChar(c: char)
    ensures Filtered([c]) ==
            if IsGapChar(c) || 'a' <= c <= 'z' || '0' <= c <= '9' then [c]
            else if 'A' <= c <= 'Z' then [(c as int + 32) as char]
            else if c as int == 0x130 then "i"
            else if c as int == 0x212A then "k"
            else ""
  {
    var low := LowerChar(c);
    GapCharsSeparate(c);
    assert [c][1..] == "" && Lower([c]) == low + "" == low;
    if |low| == 2 {
      assert low == ['i'] + ['\U{0307}'];
      KeepConcat(['i'], ['\U{0307}']);
      KeepOne('i');
      KeepOne('\U{0307}');
    } else {
      KeepOne(low[0]);
      assert low == [low[0]];
    }
  }

  lemma KeepOne(c: char)
    ensures KeepAllowed([c]) == if IsWordChar(c) || IsSeparator(c) then [c] else ""
  {
    assert [c][1..] == "" && [c] + "" == [c];
  }

  lemma {:induction false} PiecesAfterGap(g: string, rest: string)
    requires IsGap(g)
    ensures Pieces(g + rest) == Pieces(rest)
  {
    if g == "" {
      assert g + rest == rest;
    } else {
      GapCharsSeparate(g[0]);
      assert (g + rest)[1..] == g[1..] + rest;
      PiecesAfterGap(g[1..], rest);
    }
  }

  lemma PiecesOfWord(w: string, rest: string)
    requires IsPlain(w) && (rest != "" ==> IsGapChar(rest[0]))
    ensures Pieces(w + rest) == [w] + Pieces(rest)
  {
    PlainIsWord(w);
    if rest != "" { GapCharsSeparate(rest[0]); }
    RunOfWord(w, rest);
    RunIsFirstPiece(w + rest);
    assert (w + rest)[|w|..] == rest;
  }

  /** Words separated by gaps. */
  function Spaced(words: seq<string>, gaps: seq<string>): string
    requires |gaps| == |words|
  {
    if words == [] then "" else words[0] + (gaps[0] + Spaced(words[1..], gaps[1..]))
  }

  predicate ArePlain(words: seq<string>) {
    forall i :: 0 <= i < |words| ==> IsPlain(words[i])
  }

  /** One gap after each word; only the last may be empty. */
  predicate AreGaps(gaps: seq<string>) {
    forall i :: 0 <= i < |gaps| ==> IsGap(gaps[i]) && (gaps[i] == "" ==> i == |gaps| - 1)
  }

  lemma AnotherWordIsKept(w: string, g: string, rest: string, tail: string)
    requires IsPlain(w) && IsGap(g) && Filtered(rest) == rest && tail == g + rest
    ensures Filtered(w + tail) == w + tail
  {
    PlainIsWord(w);
    PlainIsKept(w);
    GapIsKept(g);
    FilteredConcat(g, rest);
    FilteredConcat(w, tail);
  }

  lemma TailStartsWithGap(g: string, rest: string)
    requires IsGap(g) && (g == "" ==> rest == "")
    ensures g + rest != "" ==> IsGapChar((g + rest)[0])
  {
  }

  lemma AnotherPiece(w: string, g: string, rest: string, tail: string)
    requires IsPlain(w) && IsGap(g) && tail == g + rest && (tail != "" ==> IsGapChar(tail[0]))
    ensures Pieces(w + tail) == [w] + Pieces(rest)
  {
    PiecesAfterGap(g, rest);
    PiecesOfWord(w, tail);
  }

  lemma AnotherWord(w: string, g: string, rest: string, tail: string)
    requires IsPlain(w) && IsGap(g) && (g == "" ==> rest == "") && Filtered(rest) == rest && tail == g + rest
    ensures Filtered(w + tail) == w + tail
    ensures Pieces(w + tail) == [w] + Pieces(rest)
  {
    AnotherWordIsKept(w, g, rest, tail);
    TailStartsWithGap(g, rest);
    AnotherPiece(w, g, rest, tail);
  }

  lemma {:induction false} SpacedPieces(words: seq<string>, gaps: seq<string>)
    requires |gaps| == |words| && ArePlain(words) && AreGaps(gaps)
    ensures Filtered(Spaced(words, gaps)) == Spaced(words, gaps)
    ensures Pieces(Spaced(words, gaps)) == words
  {
    if words != [] {
      SpacedPieces(words[1..], gaps[1..]);
      var rest := Spaced(words[1..], gaps[1..]);
      AnotherWord(words[0], gaps[0], rest, gaps[0] + rest);
    }
  }

  // ---- Main results ----

  /** However the words of a name are spaced and framed, its slug is the words with single dashes. */
  lemma SpacedWordsAreDashed(left: string, words: seq<string>, gaps: seq<string>)
    requires IsGap(left) && |gaps| == |words| && ArePlain(words) && AreGaps(gaps)
    ensures Slugify(left + Spaced(words, gaps)) == Join(words)
  {
    SpacedPieces(words, gaps);
    FrameIsFree(left, Spaced(words, gaps));
  }

  lemma FrameIsFree(left: string, name: string)
    requires IsGap(left)
    ensures Slugify(left + name) == Join(Pieces(Filtered(name)))
  {
    GapIsKept(left);
    FilteredConcat(left, name);
    PiecesAfterGap(left, Filtered(name));
    SlugifyJoinsPieces(left + name);
  }

  /** In particular for two words. */
  lemma TwoWords(left: string, a: string, gap: string, b: string, right: string)
    requires IsPlain(a) && IsPlain(b) && gap != "" && IsGap(left) && IsGap(gap) && IsGap(right)
    ensures Slugify(left + a + gap + b + right) == a + "-" + b
  {
    Regroup(left, a, gap, b, right);
    FrameIsFree(left, a + (gap + (b + right)));
    TwoPieces(a, gap, b, right);
    JoinTwo(a, b);
  }

  lemma Regroup(left: string, a: string, gap: string, b: string, right: string)
    ensures left + a + gap + b + right == left + (a + (gap + (b + right)))
  {
  }

  lemma TwoPieces(a: string, gap: string, b: string, right: string)
    requires IsPlain(a) && IsPlain(b) && gap != "" && IsGap(gap) && IsGap(right)
    ensures Pieces(Filtered(a + (gap + (b + right)))) == [a, b]
  {
    AnotherWord(b, right, "", right);
    AnotherWord(a, gap, b + right, gap + (b + right));
  }

  lemma JoinTwo(a: string, b: string)
    ensures Join([a, b]) == a + "-" + b
  {
    assert [a, b][1..] == [b];
  }

  lemma OneWord(name: string)
    requires IsPlain(Filtered(name))
    ensures Slugify(name) == Filtered(name)
  {
    PiecesOfWord(Filtered(name), "");
    assert Filtered(name) + "" == Filtered(name);
    SlugifyJoinsPieces(name);
  }

  lemma FilteredBetween(a: string, c: char, b: string)
    requires IsPlain(a) && IsPlain(b)
    ensures Filtered(a + [c] + b) == a + Filtered([c]) + b
  {
    PlainIsWord(a);
    PlainIsWord(b);
    PlainIsKept(a);
    PlainIsKept(b);
    FilteredConcat(a, [c]);
    FilteredConcat(a + [c], b);
  }

  /** What one character between two words becomes, whichever it is: the gaps separate; a letter,
      small or capital, and a digit stand for themselves in small letters; every other is dropped. */
  predicate Becomes(c: char, d: string) {
    if IsGapChar(c) then d == "-"
    else if 'a' <= c <= 'z' || '0' <= c <= '9' then d == [c]
    else if 'A' <= c <= 'Z' then d == [(c as int - 'A' as int + 'a' as int) as char]
    else if c as int == 0x130 then d == "i"
    else if c as int == 0x212A then d == "k"
    else d == ""
  }

  lemma OneCharBetween(a: string, c: char, b: string, d: string)
    requires IsPlain(a) && IsPlain(b) && Becomes(c, d)
    ensures Slugify(a + [c] + b) == a + d + b
  {
    if IsGapChar(c) {
      GapBetween(a, [c], b);
    } else {
      OneChar(c);
      FilteredBetween(a, c, b);
      PlainAround(a, d, b);
      OneWord(a + [c] + b);
    }
  }

  lemma GapBetween(a: string, gap: string, b: string)
    requires IsPlain(a) && IsPlain(b) && gap != "" && IsGap(gap)
    ensures Slugify(a + gap + b) == a + "-" + b
  {
    TwoWords("", a, gap, b, "");
    assert "" + a + gap + b + "" == a + gap + b;
  }

  lemma PlainAround(a: string, d: string, b: string)
    requires IsPlain(a) && IsPlain(b) && (d == "" || IsPlain(d))
    ensures IsPlain(a + d + b)
  {
  }

  /** The names differ only in that one has small letters where the other has the capitals, of the
      same place in the alphabet. */
  predicate SameButForCase(name: string, other: string) {
    && |name| == |other|
    && forall i :: 0 <= i < |name| ==>
         name[i] == other[i] || ('A' <= name[i] <= 'Z' && other[i] as int - 'a' as int == name[i] as int - 'A' as int)
  }

  lemma {:induction false} SameLower(name: string, other: string)
    requires SameButForCase(name, other)
    ensures Lower(name) == Lower(other)
  {
    if name != "" { SameLower(name[1..], other[1..]); }
  }

  /** The case of letters makes no difference. */
  lemma CaseDoesNotMatter(name: string, other: string)
    requires SameButForCase(name, other)
    ensures Slugify(name) == Slugify(other)
  {
    SameLower(name, other);
  }
}
