/** Which keywords a cache keeps, told from their characters. */
module KeywordMeaning {
  import opened Wrappers
  import opened Strings
  import opened Sequences
  import opened Ordering
  import opened KeywordCache

  // ----- Stripping -----

  predicate AllSpace(s: string) {
    forall i | 0 <= i < |s| :: IsSpace(s[i])
  }

  predicate NoSpaceAtEnds(s: string) {
    s != "" ==> !IsSpace(s[0]) && !IsSpace(s[|s| - 1])
  }

  /** The text is the keyword between white space. */
  ghost predicate Stripped(raw: string, s: string) {
    NoSpaceAtEnds(s) && exists pre, post :: AllSpace(pre) && AllSpace(post) && raw == pre + s + post
  }

  lemma {:induction false} TrimLeftSkips(pre: string, s: string)
    requires AllSpace(pre)
    ensures TrimLeft(pre + s) == TrimLeft(s)
  {
    if pre == "" {
      assert pre + s == s;
    } else {
      assert (pre + s)[1..] == pre[1..] + s;
      TrimLeftSkips(pre[1..], s);
    }
  }

  lemma {:induction false} TrimRightSkips(s: string, post: string)
    requires AllSpace(post)
    ensures TrimRight(s + post) == TrimRight(s)
  {
    if post == "" {
      assert s + post == s;
    } else {
      var init := post[..|post| - 1];
      assert (s + post)[..|s + post| - 1] == s + init;
      TrimRightSkips(s, init);
    }
  }

  lemma {:induction false} TrimLeftSplits(s: string) returns (pre: string)
    ensures AllSpace(pre) && s == pre + TrimLeft(s)
  {
    if s != "" && IsSpace(s[0]) {
      var rest := TrimLeftSplits(s[1..]);
      pre := [s[0]] + rest;
      assert s == [s[0]] + s[1..];
    } else {
      pre := "";
    }
  }

  lemma {:induction false} TrimRightSplits(s: string) returns (post: string)
    ensures AllSpace(post) && s == TrimRight(s) + post
  {
    if s != "" && IsSpace(s[|s| - 1]) {
      var rest := TrimRightSplits(s[..|s| - 1]);
      post := rest + [s[|s| - 1]];
      assert s == s[..|s| - 1] + [s[|s| - 1]];
    } else {
      post := "";
    }
  }

  /** `strip` leaves what stands between the white space, and there is only one such text. */
  lemma StripLeavesTheKeyword(raw: string, s: string)
    ensures Stripped(raw, s) <==> s == Trim(raw)
  {
    if Stripped(raw, s) {
      var pre, post :| AllSpace(pre) && AllSpace(post) && raw == pre + s + post;
      assert raw == pre + (s + post);
      TrimLeftSkips(pre, s + post);
      if s == "" {
        assert s + post == post + "";
        TrimLeftSkips(post, "");
      } else {
        assert (s + post)[0] == s[0];
        TrimRightSkips(s, post);
      }
    }
    if s == Trim(raw) {
      var pre := TrimLeftSplits(raw);
      var post := TrimRightSplits(TrimLeft(raw));
      TrimIsTrimmed(raw);
      assert raw == pre + s + post;
    }
  }

  // ----- What is kept -----

  /** At least two characters, some of them Chinese, and no stopword: kept as it is spelled. */
  predicate IsChineseKeyword(s: string) {
    |s| >= 2 && HasCjk(s) && Lower(s) !in STOPWORDS
  }

  /** At least three characters of an ASCII word that is no number, no stopword and no UUID: kept in lower case. */
  predicate IsAsciiKeyword(s: string, w: string) {
    w == Lower(s) && |w| >= 3 && IsAsciiWord(w) && !AllDigits(w) && w !in STOPWORDS && !IsOpaque(s)
  }

  /** A raw text gives a word if and only if, between its white space, it is such a keyword. */
  lemma KeptIff(raw: string, w: string)
    ensures NormalizeKeyword(raw) == Some(w)
      <==> exists s :: Stripped(raw, s) && ((IsChineseKeyword(s) && w == s) || IsAsciiKeyword(s, w))
  {
    var s := Trim(raw);
    StripLeavesTheKeyword(raw, s);
    ChineseIsNeitherNumberNorUuid(s);
    if IsAsciiKeyword(s, w) {
      AsciiHasNoChinese(s);
    }
    if other :| Stripped(raw, other) && ((IsChineseKeyword(other) && w == other) || IsAsciiKeyword(other, w)) {
      StripLeavesTheKeyword(raw, other);
    }
  }

  lemma ChineseIsNeitherNumberNorUuid(s: string)
    ensures HasCjk(s) ==> !AllDigits(Lower(s)) && !IsOpaque(s)
  {
    if i :| 0 <= i < |s| && IsCjk(s[i]) {
      assert Lower(s)[i] == s[i];
    }
  }

  lemma AsciiHasNoChinese(s: string)
    requires IsAsciiWord(Lower(s))
    ensures !HasCjk(s)
  {
    forall i | 0 <= i < |s| ensures !IsCjk(s[i]) {
      assert IsWordPart(Lower(s)[i]);
    }
  }

  lemma NothingToStrip(s: string)
    requires NoSpaceAtEnds(s)
    ensures Stripped(s, s)
  {
    TrimmedIsFixed(s);
    StripLeavesTheKeyword(s, s);
  }

  /** A Chinese keyword without white space around it gives itself. */
  lemma ChineseIsKept(s: string)
    requires NoSpaceAtEnds(s) && IsChineseKeyword(s)
    ensures NormalizeKeyword(s) == Some(s)
  {
    NothingToStrip(s);
    KeptIff(s, s);
  }

  lemma WordHasNoSpaceAtEnds(s: string)
    requires IsAsciiWord(Lower(s))
    ensures NoSpaceAtEnds(s)
  {
    assert IsWordPart(Lower(s)[0]) && IsWordPart(Lower(s)[|s| - 1]);
  }

  /** An ASCII keyword gives its lower case. */
  lemma AsciiIsKept(s: string)
    requires IsAsciiKeyword(s, Lower(s))
    ensures NormalizeKeyword(s) == Some(Lower(s))
  {
    WordHasNoSpaceAtEnds(s);
    NothingToStrip(s);
    KeptIff(s, Lower(s));
  }

  function UpperChar(c: char): char {
    if 'a' <= c <= 'z' then (c as int - 32) as char else c
  }

  function Upper(s: string): (r: string)
    ensures |r| == |s| && forall i | 0 <= i < |s| :: r[i] == UpperChar(s[i])
  {
    seq(|s|, i requires 0 <= i < |s| => UpperChar(s[i]))
  }

  lemma UpperIsUndone(c: char)
    requires IsWordPart(c)
    ensures LowerChar(UpperChar(c)) == c && SameShape(UpperChar(c), c)
  {
  }

  lemma UpperSpells(w: string)
    requires IsAsciiWord(w)
    ensures Lower(Upper(w)) == w && IsOpaque(Upper(w)) == IsOpaque(w)
  {
    forall i | 0 <= i < |w| ensures LowerChar(UpperChar(w[i])) == w[i] && SameShape(Upper(w)[i], w[i]) {
      UpperIsUndone(w[i]);
    }
    OpaqueByShape(Upper(w), w);
  }

  /** A lower-case keyword and its upper-case spelling give the same word. */
  lemma CaseDoesNotMatter(w: string)
    requires Lower(w) == w && IsAsciiKeyword(w, w)
    ensures NormalizeKeyword(w) == NormalizeKeyword(Upper(w)) == Some(w)
  {
    UpperSpells(w);
    AsciiIsKept(w);
    AsciiIsKept(Upper(w));
  }

  lemma TwoCharacters(a: char, b: char)
    requires !IsSpace(a) && IsCjk(b) && !IsSpace(b) && Lower([a, b]) !in STOPWORDS
    ensures NormalizeKeyword([a, b]) == Some([a, b])
  {
    assert IsCjk([a, b][1]);
    ChineseIsKept([a, b]);
  }

  lemma OneCharacter(c: char)
    requires !IsSpace(c)
    ensures NormalizeKeyword([c]) == None
  {
    TrimmedIsFixed([c]);
  }

  /** Two characters are enough for a Chinese keyword, the first and the last of the Chinese ones included. */
  lemma ChineseSpellings()
    ensures NormalizeKeyword("京都") == Some("京都") && NormalizeKeyword("X光") == Some("X光")
    ensures NormalizeKeyword("x\U{4e00}") == Some("x\U{4e00}") && NormalizeKeyword("x\U{9fff}") == Some("x\U{9fff}")
    ensures NormalizeKeyword("京") == None
  {
    TwoCharacters('京', '都');
    TwoCharacters('X', '光');
    TwoCharacters('x', '\U{4e00}');
    TwoCharacters('x', '\U{9fff}');
    OneCharacter('京');
  }

  lemma ThreeCharacters(a: char, b: char, c: char)
    requires IsWordStart(LowerChar(a)) && IsWordPart(LowerChar(b)) && IsWordPart(LowerChar(c)) && !IsDigit(c)
    requires Lower([a, b, c]) !in STOPWORDS
    ensures NormalizeKeyword([a, b, c]) == Some([LowerChar(a), LowerChar(b), LowerChar(c)])
  {
    var low := Lower([a, b, c]);
    assert low == [LowerChar(a), LowerChar(b), LowerChar(c)];
    assert !IsDigit(low[2]);
    AsciiIsKept([a, b, c]);
  }

  /** Three characters are enough for an ASCII word, which may start with a digit and have signs; the Kelvin sign is
      a k. */
  lemma AsciiSpellings()
    ensures NormalizeKeyword("Vue") == Some("vue") && NormalizeKeyword("c++") == Some("c++") && NormalizeKeyword("3d_") == Some("3d_")
    ensures NormalizeKeyword("\U{212a}ey") == Some("key")
  {
    ThreeCharacters('\U{212a}', 'e', 'y');
    ThreeCharacters('V', 'u', 'e');
    ThreeCharacters('c', '+', '+');
    ThreeCharacters('3', 'd', '_');
  }

  // ----- What is cached -----

  lemma {:induction false} ItemsCount(weights: map<string, real>)
    ensures |ItemsOf(weights)| == |weights|
  {
    if weights != map[] {
      var w :| w in weights;
      var rest := weights - {w};
      ItemsCount(rest);
      assert weights == rest[w := weights[w]];
      assert ItemsOf(weights) == ItemsOf(rest) + {Weighted(w, weights[w])};
    }
  }

  /** The entry is heavier, or as heavy and not after it in the order of words. */
  predicate Before(a: Weighted, b: Weighted) {
    a.weight > b.weight || (a.weight == b.weight && LexLe(a.word, b.word))
  }

  ghost predicate Lists(cache: seq<Weighted>, word: string) {
    exists j :: 0 <= j < |cache| && cache[j].word == word
  }

  /** A word that some raw keyword gives is cached, unless eight others rank before that keyword. */
  lemma CachedUnlessEightBefore(raw: seq<Weighted>, cache: seq<Weighted>, k: nat, word: string)
    requires IsTopEight(Weights(raw), cache) && Gives(raw, k, word)
    ensures Lists(cache, word) || (|cache| == 8 && forall j | 0 <= j < |cache| :: Before(cache[j], Weighted(word, raw[k].weight)))
  {
    if !Lists(cache, word) {
      forall j | 0 <= j < |cache| ensures Before(cache[j], Weighted(word, raw[k].weight)) {
        LeftOutRanksBehind(raw, cache, k, word, j);
      }
      NormalFormsAreNotEmpty(raw[k].word);
      WordsAreNormalForms(raw, word);
      FullUnlessAllCached(Weights(raw), cache, word);
    }
  }

  lemma FullUnlessAllCached(weights: map<string, real>, cache: seq<Weighted>, word: string)
    requires IsTopEight(weights, cache) && word in weights && !Lists(cache, word)
    ensures |cache| == 8
  {
    var x := Weighted(word, weights[word]);
    assert x in ItemsOf(weights) && x !in Elements(cache);
    ItemsCount(weights);
    DistinctCounts(cache);
    SubsetCounts(Elements(cache) + {x}, ItemsOf(weights));
  }

  /** What the cache of a memory keeps, for any extractor and any rounding: every keyword of its text, by the word it
      gives, unless the cache is full of words that are at least as heavy; and nothing else. */
  lemma CacheKeeps(extract: string -> seq<Weighted>, round: real -> real, summary: Option<string>, content: Option<string>,
                   cache: seq<Weighted>, word: string)
    requires IsCache(extract, round, summary, content, cache) && SourceText(summary, content) != ""
    ensures var raw := extract(SourceText(summary, content));
      && ((exists k :: GivenBy(raw, k, word)) ==> Lists(cache, word) || |cache| == 8)
      && (Lists(cache, word) ==> exists k :: GivenBy(raw, k, word))
      && (!Lists(cache, word) && Monotone(round) ==> forall k | GivenBy(raw, k, word) :: NoneLighter(cache, round(raw[k].weight)))
  {
    var raw := extract(SourceText(summary, content));
    var ranked: seq<Weighted> :| IsTopEight(Weights(raw), ranked) && cache == Rounded(round, ranked);
    assert Lists(cache, word) <==> Lists(ranked, word);
    GivenIffGives(raw, word);
    forall k | GivenBy(raw, k, word) && !Lists(cache, word)
      ensures |cache| == 8 && (Monotone(round) ==> NoneLighter(cache, round(raw[k].weight)))
    {
      assert Gives(raw, k, word);
      CachedUnlessEightBefore(raw, ranked, k, word);
    }
    if j :| 0 <= j < |ranked| && ranked[j].word == word {
      EntryIsMaximal(raw, ranked, j);
      var k :| Gives(raw, k, word);
      assert GivenBy(raw, k, word);
    }
  }

  ghost predicate Monotone(round: real -> real) {
    forall x, y | x <= y :: round(x) <= round(y)
  }

  predicate NoneLighter(cache: seq<Weighted>, weight: real) {
    forall j | 0 <= j < |cache| :: cache[j].weight >= weight
  }

  /** The raw keyword at this position is, between its white space, a keyword that is kept as this word. */
  ghost predicate GivenBy(raw: seq<Weighted>, k: int, word: string) {
    0 <= k < |raw| && exists s :: Stripped(raw[k].word, s) && ((IsChineseKeyword(s) && word == s) || IsAsciiKeyword(s, word))
  }

  lemma GivenIffGives(raw: seq<Weighted>, word: string)
    ensures forall k :: GivenBy(raw, k, word) <==> Gives(raw, k, word)
  {
    forall k | 0 <= k < |raw| ensures GivenBy(raw, k, word) <==> Gives(raw, k, word) {
      KeptIff(raw[k].word, word);
    }
  }

  // ----- The text that is read -----

  /** The two parts of a memory are stripped and joined by a line break; a part without text is left out. */
  lemma TextJoinsTheParts(a: string, b: string, x: string, y: string)
    requires Stripped(a, x) && Stripped(b, y)
    ensures SourceText(Some(a), Some(b)) == if x == "" then y else if y == "" then x else x + "\n" + y
    ensures SourceText(Some(a), None) == x && SourceText(None, Some(b)) == y && SourceText(None, None) == ""
  {
    StripLeavesTheKeyword(a, x);
    StripLeavesTheKeyword(b, y);
  }
}
