/** Migration 0028: caching keywords of memories. Weights are exact reals. */
module KeywordCache {
  import opened Wrappers
  import opened Strings
  import opened Sequences
  import opened Ordering

  // ----- Normalising a keyword -----

  /** English and Chinese words that say nothing about a memory. */
  const STOPWORDS := {
    "active", "agent", "ai", "archived", "assistant", "candidate", "chat", "content", "conversation", "current",
    "default", "memory", "meta", "project", "reply", "runtime", "session", "summary", "system", "task", "user",
    "上下文", "内容", "信息", "任务", "偏好", "关系", "分析", "对话", "当前", "总结", "摘要", "系统", "聊天",
    "规则", "记忆", "设定", "说明", "项目", "用户"
  }

  predicate IsDigit(c: char) {
    '0' <= c <= '9'
  }

  predicate IsHex(c: char) {
    IsDigit(c) || 'a' <= c <= 'f' || 'A' <= c <= 'F'
  }

  predicate IsCjk(c: char) {
    0x4e00 as char <= c <= 0x9fff as char
  }

  /** `[a-z0-9]` at the start, `[a-z0-9_./+-]` afterwards. */
  predicate IsWordStart(c: char) {
    'a' <= c <= 'z' || IsDigit(c)
  }

  predicate IsWordPart(c: char) {
    IsWordStart(c) || c == '_' || c == '.' || c == '/' || c == '+' || c == '-'
  }

  function TrimLeft(s: string): string {
    if s != "" && IsSpace(s[0]) then TrimLeft(s[1..]) else s
  }

  function TrimRight(s: string): string {
    if s != "" && IsSpace(s[|s| - 1]) then TrimRight(s[..|s| - 1]) else s
  }

  /** `str.strip` */
  function Trim(s: string): string {
    TrimRight(TrimLeft(s))
  }

  /** `str.lower` of the characters whose lower case is an ASCII letter: A to Z and the Kelvin sign. Others are
      left alone: only an ASCII word or a stopword is looked for in the result, and no other character can
      become part of one. */
  function LowerChar(c: char): char {
    if 'A' <= c <= 'Z' then (c as int + 32) as char
    else if c == 0x212a as char then 'k'
    else c
  }

  function Lower(s: string): (r: string)
    ensures |r| == |s| && forall i | 0 <= i < |s| :: r[i] == LowerChar(s[i])
  {
    if s == "" then "" else [LowerChar(s[0])] + Lower(s[1..])
  }

  /** A UUID, with or without its dashes. */
  predicate IsOpaque(s: string) {
    || (|s| == 32 && forall i | 0 <= i < 32 :: IsHex(s[i]))
    || (|s| == 36 && forall i | 0 <= i < 36 ::
          if i == 8 || i == 13 || i == 18 || i == 23 then s[i] == '-' else IsHex(s[i]))
  }

  /** `str.isdigit`, for ASCII digits; a keyword of other digits is no ASCII word and has no Chinese character, so
      it is dropped as well. */
  predicate AllDigits(s: string) {
    s != "" && forall i | 0 <= i < |s| :: IsDigit(s[i])
  }

  predicate HasCjk(s: string) {
    exists i | 0 <= i < |s| :: IsCjk(s[i])
  }

  predicate IsAsciiWord(s: string) {
    s != "" && IsWordStart(s[0]) && forall i | 0 <= i < |s| :: IsWordPart(s[i])
  }

  /** `_normalize_keyword`, for any list of stopwords. */
  function NormalizeWith(stopwords: set<string>, raw: string): Option<string> {
    var keyword := Trim(raw);
    var normalized := Lower(keyword);
    if keyword == "" || normalized in stopwords || AllDigits(normalized) || IsOpaque(keyword) then None
    else if HasCjk(keyword) then (if |keyword| >= 2 then Some(keyword) else None)
    else if IsAsciiWord(normalized) && |normalized| >= 3 then Some(normalized)
    else None
  }

  function NormalizeKeyword(raw: string): Option<string> {
    NormalizeWith(STOPWORDS, raw)
  }

  lemma {:induction false} TrimIsTrimmed(s: string)
    ensures var t := Trim(s); t != "" ==> !IsSpace(t[0]) && !IsSpace(t[|t| - 1])
  {
    TrimLeftIsTrimmed(s);
    TrimRightIsTrimmed(TrimLeft(s));
  }

  lemma {:induction false} TrimLeftIsTrimmed(s: string)
    ensures TrimLeft(s) != "" ==> !IsSpace(TrimLeft(s)[0])
  {
    if s != "" && IsSpace(s[0]) {
      TrimLeftIsTrimmed(s[1..]);
    }
  }

  lemma {:induction false} TrimRightIsTrimmed(s: string)
    ensures var t := TrimRight(s); t <= s && (t != "" ==> !IsSpace(t[|t| - 1]))
  {
    if s != "" && IsSpace(s[|s| - 1]) {
      TrimRightIsTrimmed(s[..|s| - 1]);
    }
  }

  lemma TrimmedIsFixed(s: string)
    requires s != "" ==> !IsSpace(s[0]) && !IsSpace(s[|s| - 1])
    ensures Trim(s) == s
  {
  }

  /** Normal forms are fixed: normalising a result again gives it back. */
  lemma NormalizingIsIdempotent(stopwords: set<string>, raw: string)
    requires NormalizeWith(stopwords, raw).Some?
    ensures NormalizeWith(stopwords, NormalizeWith(stopwords, raw).value) == NormalizeWith(stopwords, raw)
  {
    var keyword := Trim(raw);
    TrimIsTrimmed(raw);
    if HasCjk(keyword) {
      TrimmedIsFixed(keyword);
    } else {
      LowerIsFixed(keyword);
      TrimmedIsFixed(Lower(keyword));
    }
  }

  /** Lower-casing an ASCII word again changes nothing, and makes it neither a UUID nor Chinese. */
  lemma LowerIsFixed(keyword: string)
    requires IsAsciiWord(Lower(keyword)) && !IsOpaque(keyword)
    ensures Lower(Lower(keyword)) == Lower(keyword) && !IsOpaque(Lower(keyword)) && !HasCjk(Lower(keyword))
    ensures !IsSpace(Lower(keyword)[0]) && !IsSpace(Lower(keyword)[|keyword| - 1])
  {
    var low := Lower(keyword);
    forall i | 0 <= i < |keyword|
      ensures LowerChar(low[i]) == low[i] && !IsCjk(low[i]) && !IsSpace(low[i])
      ensures SameShape(low[i], keyword[i])
    {
      assert IsWordPart(low[i]);
      LowerCharIsFixed(keyword[i]);
    }
    FixedIfCharsAre(low);
    OpaqueByShape(low, keyword);
  }

  predicate SameShape(c: char, d: char) {
    (IsHex(c) <==> IsHex(d)) && (c == '-' <==> d == '-')
  }

  lemma FixedIfCharsAre(s: string)
    requires forall i | 0 <= i < |s| :: LowerChar(s[i]) == s[i]
    ensures Lower(s) == s
  {
  }

  lemma OpaqueByShape(s: string, t: string)
    requires |s| == |t| && forall i | 0 <= i < |s| :: SameShape(s[i], t[i])
    ensures IsOpaque(s) == IsOpaque(t)
  {
  }

  lemma LowerCharIsFixed(c: char)
    requires IsWordPart(LowerChar(c))
    ensures var d := LowerChar(c);
      LowerChar(d) == d && !IsCjk(d) && !IsSpace(d) && SameShape(d, c)
  {
  }

  // ----- The cache -----

  datatype Weighted = Weighted(word: string, weight: real)

  /** Heavier first, then by word. */
  predicate RanksBefore(a: Weighted, b: Weighted) {
    a.weight > b.weight || (a.weight == b.weight && LexLe(a.word, b.word))
  }

  lemma RankIsTotal(s: set<Weighted>)
    ensures Preorder(RanksBefore) && NoTies(RanksBefore, s)
  {
    forall x, y ensures RanksBefore(x, y) || RanksBefore(y, x) {
      LexTotal(x.word, y.word);
    }
    forall x, y, z | RanksBefore(x, y) && RanksBefore(y, z) ensures RanksBefore(x, z) {
      if x.weight == y.weight == z.weight {
        LexTransitive(x.word, y.word, z.word);
      }
    }
    forall x, y | x in s && y in s && RanksBefore(x, y) && RanksBefore(y, x) ensures x == y {
      LexTotal(x.word, y.word);
    }
  }

  function Max(a: real, b: real): real {
    if a < b then b else a
  }

  /** The weights dictionary after the raw keywords; an absent word counts as 0. */
  function Weights(raw: seq<Weighted>): map<string, real> {
    if raw == [] then map[]
    else
      var init, last := Weights(raw[..|raw| - 1]), raw[|raw| - 1];
      var word := NormalizeKeyword(last.word);
      if word.None? || word.value == "" then init
      else init[word.value := Max(if word.value in init then init[word.value] else 0.0, last.weight)]
  }

  /** `dict.items()` */
  function ItemsOf(weights: map<string, real>): set<Weighted> {
    set w | w in weights :: Weighted(w, weights[w])
  }

  /** The raw keyword at this position normalises to the word. */
  predicate Gives(raw: seq<Weighted>, i: int, word: string) {
    0 <= i < |raw| && NormalizeKeyword(raw[i].word) == Some(word)
  }

  ghost predicate IsNormalForm(raw: seq<Weighted>, word: string) {
    exists i :: Gives(raw, i, word)
  }

  lemma OneMoreKeyword(raw: seq<Weighted>, word: string)
    requires raw != []
    ensures var init, last := raw[..|raw| - 1], |raw| - 1;
      && (forall i :: Gives(raw, i, word) <==> Gives(init, i, word) || (i == last && NormalizeKeyword(raw[last].word) == Some(word)))
      && (IsNormalForm(raw, word) <==> IsNormalForm(init, word) || NormalizeKeyword(raw[last].word) == Some(word))
  {
    var init, last := raw[..|raw| - 1], |raw| - 1;
    assert forall i :: Gives(raw, i, word) <==> Gives(init, i, word) || (i == last && NormalizeKeyword(raw[last].word) == Some(word));
    if NormalizeKeyword(raw[last].word) == Some(word) {
      assert Gives(raw, last, word);
    }
  }

  /** The dictionary has exactly the normal forms. */
  lemma {:induction false} WordsAreNormalForms(raw: seq<Weighted>, word: string)
    ensures word in Weights(raw) <==> word != "" && IsNormalForm(raw, word)
  {
    if raw != [] {
      WordsAreNormalForms(raw[..|raw| - 1], word);
      OneMoreKeyword(raw, word);
    }
  }

  /** A word is cached under the largest weight of the raw keywords that normalise to it, and never below 0. */
  lemma {:induction false} WeightsAreMaximal(raw: seq<Weighted>, word: string)
    requires word in Weights(raw)
    ensures forall i | Gives(raw, i, word) :: raw[i].weight <= Weights(raw)[word]
    ensures Weights(raw)[word] == 0.0 || exists i :: Gives(raw, i, word) && raw[i].weight == Weights(raw)[word]
    ensures Weights(raw)[word] >= 0.0
  {
    var init := raw[..|raw| - 1];
    OneMoreKeyword(raw, word);
    if word in Weights(init) {
      WeightsAreMaximal(init, word);
    } else {
      WordsAreNormalForms(init, word);
    }
  }

  const CACHE_SIZE := 8

  /** The best eight entries of the dictionary, best first. */
  ghost predicate IsTopEight(weights: map<string, real>, cache: seq<Weighted>) {
    && Sorted(RanksBefore, cache) && NoRepeats(cache)
    && |cache| == (if |weights| < CACHE_SIZE then |weights| else CACHE_SIZE)
    && (forall x | x in cache :: x in ItemsOf(weights))
    && (forall x, y | x in ItemsOf(weights) && x !in cache && y in cache :: RanksBefore(y, x))
  }

  /** `"\n".join(part.strip() for part in (summary or "", content or "") if part and part.strip())` */
  function SourceText(summary: Option<string>, content: Option<string>): string {
    var s := if summary.Some? then Trim(summary.value) else "";
    var c := if content.Some? then Trim(content.value) else "";
    if s == "" then c else if c == "" then s else s + "\n" + c
  }

  /** `{"word": word, "weight": round(weight, 4)}` */
  function Rounded(round: real -> real, ranked: seq<Weighted>): (cache: seq<Weighted>)
    ensures |cache| == |ranked|
    ensures forall i | 0 <= i < |cache| :: cache[i] == Weighted(ranked[i].word, round(ranked[i].weight))
  {
    seq(|ranked|, i requires 0 <= i < |ranked| => Weighted(ranked[i].word, round(ranked[i].weight)))
  }

  ghost predicate IsRoundedTopEight(weights: map<string, real>, round: real -> real, cache: seq<Weighted>) {
    exists ranked :: IsTopEight(weights, ranked) && cache == Rounded(round, ranked)
  }

  /** What a memory's cache has to be, for a keyword extractor and a rounding. */
  ghost predicate IsCache(extract: string -> seq<Weighted>, round: real -> real, summary: Option<string>,
                          content: Option<string>, cache: seq<Weighted>)
  {
    var text := SourceText(summary, content);
    if text == "" then cache == [] else IsRoundedTopEight(Weights(extract(text)), round, cache)
  }

  /** At most eight entries, with distinct words, heaviest first and equal weights by word. */
  lemma EntriesAreRanked(raw: seq<Weighted>, cache: seq<Weighted>)
    requires IsTopEight(Weights(raw), cache)
    ensures |cache| <= 8
    ensures forall i, j | 0 <= i < j < |cache| :: cache[i].word != cache[j].word
    ensures forall i, j | 0 <= i < j < |cache| :: cache[i].weight >= cache[j].weight
    ensures forall i, j | 0 <= i < j < |cache| && cache[i].weight == cache[j].weight :: LexLe(cache[i].word, cache[j].word)
  {
    forall i, j | 0 <= i < j < |cache| ensures cache[i].word != cache[j].word {
      EntryIsItem(Weights(raw), cache, i);
      EntryIsItem(Weights(raw), cache, j);
    }
  }

  /** After a rounding that respects the order, a cache still has at most eight distinct words, heaviest first. */
  lemma RoundingKeepsTheOrder(raw: seq<Weighted>, round: real -> real, cache: seq<Weighted>)
    requires IsRoundedTopEight(Weights(raw), round, cache)
    requires forall x, y | x <= y :: round(x) <= round(y)
    ensures |cache| <= 8
    ensures forall i, j | 0 <= i < j < |cache| :: cache[i].word != cache[j].word && cache[i].weight >= cache[j].weight
  {
    var ranked :| IsTopEight(Weights(raw), ranked) && cache == Rounded(round, ranked);
    EntriesAreRanked(raw, ranked);
  }

  lemma EntryIsItem(weights: map<string, real>, cache: seq<Weighted>, i: nat)
    requires IsTopEight(weights, cache) && i < |cache|
    ensures cache[i].word in weights && weights[cache[i].word] == cache[i].weight
  {
    assert cache[i] in cache;
    assert cache[i] in ItemsOf(weights);
  }

  /** An entry's word is a normal form of some raw keyword, and its weight the largest of the raw keywords that
      normalise to it, or 0 if they are all negative. */
  lemma EntryIsMaximal(raw: seq<Weighted>, cache: seq<Weighted>, i: nat)
    requires IsTopEight(Weights(raw), cache) && i < |cache|
    ensures IsNormalForm(raw, cache[i].word)
    ensures forall k | Gives(raw, k, cache[i].word) :: raw[k].weight <= cache[i].weight
    ensures cache[i].weight == 0.0 || exists k :: Gives(raw, k, cache[i].word) && raw[k].weight == cache[i].weight
  {
    EntryIsItem(Weights(raw), cache, i);
    WordsAreNormalForms(raw, cache[i].word);
    WeightsAreMaximal(raw, cache[i].word);
  }

  /** A raw keyword whose normal form was left out ranks behind every entry. */
  lemma LeftOutRanksBehind(raw: seq<Weighted>, cache: seq<Weighted>, k: nat, word: string, i: nat)
    requires IsTopEight(Weights(raw), cache) && i < |cache| && Gives(raw, k, word)
    requires forall j | 0 <= j < |cache| :: cache[j].word != word
    ensures RanksBefore(cache[i], Weighted(word, raw[k].weight))
  {
    NormalFormsAreNotEmpty(raw[k].word);
    WordsAreNormalForms(raw, word);
    WeightsAreMaximal(raw, word);
    var x := Weighted(word, Weights(raw)[word]);
    assert x in ItemsOf(Weights(raw));
    assert x !in cache;
    assert cache[i] in cache && RanksBefore(cache[i], x);
  }

  lemma NormalFormsAreNotEmpty(raw: string)
    requires NormalizeKeyword(raw).Some?
    ensures NormalizeKeyword(raw).value != ""
  {
  }

  /** `_build_keyword_cache`; `extract` is the keyword extractor, and `round` rounds to four digits. */
  method BuildKeywordCache(summary: Option<string>, content: Option<string>, extract: string -> seq<Weighted>, round: real -> real)
    returns (cache: seq<Weighted>)
    ensures IsCache(extract, round, summary, content, cache)
  {
    var text := SourceText(summary, content);
    if text == "" {
      return [];
    }
    var raw := extract(text);
    var weights: map<string, real> := map[];
    for i := 0 to |raw|
      invariant weights == Weights(raw[..i])
    {
      assert raw[..i + 1][..i] == raw[..i];
      var normalized := NormalizeKeyword(raw[i].word);
      if normalized.None? || normalized.value == "" {
        continue;
      }
      var w := normalized.value;
      weights := weights[w := Max(if w in weights then weights[w] else 0.0, raw[i].weight)];
    }
    assert raw[..|raw|] == raw;
    var items := ListItems(weights);
    var ranked := Sort(RanksBefore, items);
    var best := if |ranked| < CACHE_SIZE then ranked else ranked[..CACHE_SIZE];
    PrefixIsTopEight(weights, items);
    cache := Rounded(round, best);
  }

  /** `dict.items()` as a list, in whatever order. */
  method ListItems(weights: map<string, real>) returns (items: seq<Weighted>)
    ensures NoRepeats(items) && Elements(items) == ItemsOf(weights) && |items| == |weights|
  {
    items := [];
    var todo := weights.Keys;
    while todo != {}
      invariant todo <= weights.Keys && |items| + |todo| == |weights|
      invariant NoRepeats(items)
      invariant forall x :: x in items <==> x.word in weights && x.word !in todo && x.weight == weights[x.word]
    {
      var w :| w in todo;
      items := items + [Weighted(w, weights[w])];
      todo := todo - {w};
    }
  }

  lemma PrefixIsTopEight(weights: map<string, real>, items: seq<Weighted>)
    requires NoRepeats(items) && Elements(items) == ItemsOf(weights) && |items| == |weights|
    ensures var ranked := Sort(RanksBefore, items);
      IsTopEight(weights, if |ranked| < CACHE_SIZE then ranked else ranked[..CACHE_SIZE])
  {
    RankIsTotal(ItemsOf(weights));
    SortLists(RanksBefore, items);
    SortIsSorted(RanksBefore, items);
    var ranked := Sort(RanksBefore, items);
    assert |ranked| == |multiset(ranked)| == |multiset(items)| == |items|;
    var n := if |ranked| < CACHE_SIZE then |ranked| else CACHE_SIZE;
    assert |ranked| < CACHE_SIZE ==> ranked[..n] == ranked;
    PrefixRanksFirst(RanksBefore, ranked, n);
    forall x ensures x in ItemsOf(weights) <==> x in ranked {
      assert x in Elements(ranked) <==> x in ranked;
    }
  }
}
