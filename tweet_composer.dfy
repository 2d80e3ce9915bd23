/** The rule-based part of mcp_tweet_composer_agent.py: hashtag choice, insight rotation,
    the character budget, truncation at a word boundary, tweet assembly and the batch of
    variations. The language model is a function parameter from the prompt's varying parts
    to the text it writes. */
module TweetComposer {
  import opened Common
  import opened Strings

  /** `@dataclass Tweet` */
  datatype Tweet = Tweet(
    articleNumber: int, variationNumber: int, content: string, characterCount: int,
    hashtags: seq<string>, insightsUsed: seq<string>, focusTheme: string)

  /** The parts of the composition prompt that vary: the insight to feature, the variation
      number, the focus and the content budget. The article title is not among them. */
  datatype ComposePrompt = ComposePrompt(insight: string, variation: int, focus: string, maxChars: int)

  /** `compose_tweet` divides by the size of an empty insight pool. */
  datatype ComposeError = NoInsights

  // ----- _select_hashtags -----

  /** The secondary hashtags `_select_hashtags` can pick, in priority order. */
  const SecondaryTags: seq<string> :=
    ["#MachineLearning", "#Leadership", "#GenerativeAI", "#DataAnalytics",
     "#DigitalTransformation", "#DataStrategy"]

  predicate MentionsMachineLearning(k: string) { Contains(k, "machine learning") || Contains(k, "ml") }
  predicate MentionsLeadership(k: string) { Contains(k, "leadership") || Contains(k, "management") }
  predicate MentionsGenerative(k: string) { Contains(k, "generative") || Contains(k, "gpt") }
  predicate MentionsDataAnalytics(k: string) { Contains(k, "data") && Contains(k, "analytics") }
  predicate MentionsTransform(k: string) { Contains(k, "transform") }
  predicate MentionsDataStrategy(k: string) { Contains(k, "data") || Contains(k, "strategy") }

  /** The first keyword group `keywords` mentions, in priority order; "#DataStrategy" both
      for its own keywords and when nothing matches. */
  function SecondaryTag(keywords: string): (tag: string)
    ensures tag in SecondaryTags
    ensures MentionsMachineLearning(keywords) ==> tag == "#MachineLearning"
    ensures !MentionsMachineLearning(keywords) && MentionsLeadership(keywords) ==>
      tag == "#Leadership"
    ensures (!MentionsMachineLearning(keywords) && !MentionsLeadership(keywords)
             && MentionsGenerative(keywords)) ==> tag == "#GenerativeAI"
    ensures (!MentionsMachineLearning(keywords) && !MentionsLeadership(keywords)
             && !MentionsGenerative(keywords) && MentionsDataAnalytics(keywords)) ==>
      tag == "#DataAnalytics"
    ensures (!MentionsMachineLearning(keywords) && !MentionsLeadership(keywords)
             && !MentionsGenerative(keywords) && !MentionsDataAnalytics(keywords)
             && MentionsTransform(keywords)) ==> tag == "#DigitalTransformation"
    ensures tag == "#DataStrategy" <==>
      (!MentionsMachineLearning(keywords) && !MentionsLeadership(keywords)
      && !MentionsGenerative(keywords) && !MentionsDataAnalytics(keywords)
      && !MentionsTransform(keywords))
  {
    if MentionsMachineLearning(keywords) then "#MachineLearning"
    else if MentionsLeadership(keywords) then "#Leadership"
    else if MentionsGenerative(keywords) then "#GenerativeAI"
    else if MentionsDataAnalytics(keywords) then "#DataAnalytics"
    else if MentionsTransform(keywords) then "#DigitalTransformation"
    else "#DataStrategy"
  }

  /** `' '.join(themes).lower()` */
  function ThemeKeywords(themes: seq<string>): string {
    Lower(Join(" ", themes))
  }

  /** The two hashtags of every tweet: "#AI" and the secondary tag of the themes. */
  function Hashtags(themes: seq<string>): (tags: seq<string>)
    ensures |tags| == 2 && tags[0] == "#AI" && tags[1] in SecondaryTags
  {
    ["#AI", SecondaryTag(ThemeKeywords(themes))]
  }

  /** `_select_hashtags`: collects every matching secondary tag, falls back to
      "#DataStrategy", and keeps "#AI" and the first collected tag. */
  method SelectHashtags(themes: seq<string>) returns (hashtags: seq<string>)
    ensures hashtags == Hashtags(themes)
  {
    hashtags := ["#AI"];
    var keywords := ThemeKeywords(themes);
    var relevant: seq<string> := [];
    if MentionsMachineLearning(keywords) {
      relevant := relevant + ["#MachineLearning"];
    }
    if MentionsLeadership(keywords) {
      relevant := relevant + ["#Leadership"];
    }
    if MentionsGenerative(keywords) {
      relevant := relevant + ["#GenerativeAI"];
    }
    if MentionsDataAnalytics(keywords) {
      relevant := relevant + ["#DataAnalytics"];
    }
    if MentionsTransform(keywords) {
      relevant := relevant + ["#DigitalTransformation"];
    }
    if MentionsDataStrategy(keywords) {
      relevant := relevant + ["#DataStrategy"];
    }
    if relevant == [] {
      relevant := ["#DataStrategy"];
    }
    assert Take(relevant, 1) == [SecondaryTag(keywords)];
    hashtags := hashtags + Take(relevant, 1);
  }

  /** `' '.join(hashtags)` */
  function HashtagString(themes: seq<string>): (s: string)
    ensures s == "#AI " + Hashtags(themes)[1]
  {
    var tags := Hashtags(themes);
    assert Join(" ", tags[1..]) == tags[1];
    Join(" ", tags)
  }

  // ----- the character budget -----

  /** `280 - url_length - hashtag_length - spacing - 35` */
  function AvailableChars(hashtagStr: string): int {
    280 - 23 - |hashtagStr| - 4 - 35
  }

  /** With two hashtags the content budget lies between 192 and 203 characters. */
  lemma AvailableRange(themes: seq<string>)
    ensures 192 <= AvailableChars(HashtagString(themes)) <= 203
  {
    var tag := Hashtags(themes)[1];
    assert |tag| == 16 || |tag| == 11 || |tag| == 13 || |tag| == 14 || |tag| == 22;
  }

  /** The effective length `compose_tweet` computes for its warning. */
  function EffectiveCount(content: string, hashtagStr: string): int {
    |content| + 23 + |hashtagStr| + 4
  }

  // ----- truncation -----

  /** The index of the last space of `s`. */
  function LastSpace(s: string): (r: Option<nat>)
    ensures r.Some? ==> r.value < |s| && s[r.value] == ' ' && ' ' !in s[r.value + 1..]
    ensures r.None? ==> ' ' !in s
  {
    if s == [] then None
    else if s[|s| - 1] == ' ' then Some(|s| - 1)
    else
      var r := LastSpace(s[..|s| - 1]);
      assert r.Some? ==> s[r.value + 1..] == s[..|s| - 1][r.value + 1..] + [s[|s| - 1]];
      assert r.None? ==> s == s[..|s| - 1] + [s[|s| - 1]];
      r
  }

  /** `s.rsplit(' ', 1)[0]`: the text before the last space, or all of `s` without one. */
  function BeforeLastSpace(s: string): (r: string)
    ensures |r| <= |s| && r == s[..|r|]
    ensures r == s <==> ' ' !in s
    ensures r != s ==> s[|r|] == ' ' && ' ' !in s[|r| + 1..]
  {
    match LastSpace(s)
    case None => s
    case Some(i) => s[..i]
  }

  /** The content limit of `compose_tweet`: text within `limit` is kept; longer text is cut
      to its first `limit - 1` characters, back to the last space there, and given '…'. */
  function Truncate(content: string, limit: int): (r: string)
    requires limit >= 1
    ensures |r| <= limit || r == content
    ensures |content| <= limit ==> r == content
    ensures |content| > limit ==>
      && 1 <= |r| <= limit && r[|r| - 1] == '…'
      && var kept := r[..|r| - 1];
      && kept == content[..|kept|]
      && (kept == content[..limit - 1] || content[|kept|] == ' ')
  {
    if |content| <= limit then content
    else
      var kept := BeforeLastSpace(content[..limit - 1]);
      var r := kept + "…";
      assert r[..|r| - 1] == kept;
      r
  }

  /** Text that does not end in whitespace still does not after truncation. */
  lemma TruncateEnd(content: string, limit: int)
    requires limit >= 1 && (content == [] || !IsSpace(content[|content| - 1]))
    ensures var r := Truncate(content, limit); r == [] || !IsSpace(r[|r| - 1])
  {
  }

  // ----- insight selection -----

  /** `[ins for ins in insights if ins not in used_insights]` */
  function Unused(insights: seq<string>, used: seq<string>): (r: seq<string>)
    ensures |r| <= |insights|
  {
    if insights == [] then []
    else
      var first := if insights[0] in used then [] else [insights[0]];
      first + Unused(insights[1..], used)
  }

  /** The unused insights are exactly the insights not in `used`. */
  lemma {:induction false} UnusedMembers(insights: seq<string>, used: seq<string>)
    ensures forall x :: x in Unused(insights, used) <==> x in insights && x !in used
  {
    if insights != [] {
      UnusedMembers(insights[1..], used);
      assert insights == [insights[0]] + insights[1..];
    }
  }

  /** The insights to choose from: the unused ones, or all of them once every one is used. */
  function Pool(insights: seq<string>, used: seq<string>): (p: seq<string>)
    ensures insights != [] ==> p != []
  {
    var available := Unused(insights, used);
    if available == [] then insights else available
  }

  /** `i % n` for a positive `n`, by repeated subtraction or addition of `n`; the recursion
      keeps the solver from reasoning about a symbolic remainder wherever a choice is unfolded. */
  function Wrap(i: int, n: int): (k: int)
    requires n > 0
    ensures 0 <= k < n
    decreases if i < 0 then 1 else 0, if i < 0 then -i else i
  {
    if 0 <= i < n then i
    else if i < 0 then Wrap(i + n, n)
    else Wrap(i - n, n)
  }

  /** Wrap steps by whole multiples of the divisor. */
  lemma {:induction false} WrapQuotient(i: int, n: int)
    requires n > 0
    ensures exists q :: i == q * n + Wrap(i, n)
    decreases if i < 0 then 1 else 0, if i < 0 then -i else i
  {
    if 0 <= i < n {
      assert i == 0 * n + Wrap(i, n);
    } else if i < 0 {
      WrapQuotient(i + n, n);
      var q :| i + n == q * n + Wrap(i + n, n);
      assert i == (q - 1) * n + Wrap(i, n);
    } else {
      WrapQuotient(i - n, n);
      var q :| i - n == q * n + Wrap(i - n, n);
      assert i == (q + 1) * n + Wrap(i, n);
    }
  }

  /** Wrap is the remainder of Python's `%` (and Dafny's) for a positive divisor. */
  lemma WrapIsRemainder(i: int, n: int)
    requires n > 0
    ensures Wrap(i, n) == i % n
  {
    WrapQuotient(i, n);
    var q :| i == q * n + Wrap(i, n);
    ModUnique(i, n, q, Wrap(i, n));
  }

  /** The remainder is the unique `r` in `0 .. n - 1` with `a == q * n + r`. */
  lemma ModUnique(a: int, n: int, q: int, r: int)
    requires n > 0 && 0 <= r < n && a == q * n + r
    ensures a % n == r
  {
    var q', r' := a / n, a % n;
    assert a == q' * n + r';
    assert (q - q') * n == r' - r;
    if q > q' {
      MulAtLeast(q - q', n);
    } else if q < q' {
      MulAtLeast(q' - q, n);
    }
  }

  lemma MulAtLeast(d: int, n: int)
    requires n > 0 && d >= 1
    ensures d * n >= n
  {
  }

  /** The insight variation `variation` features: index `(variation - 1) % len(pool)`. */
  function SelectInsight(insights: seq<string>, used: seq<string>, variation: int): (s: string)
    requires insights != []
    ensures s in insights
  {
    UnusedMembers(insights, used);
    var pool := Pool(insights, used);
    pool[Wrap(variation - 1, |pool|)]
  }

  /** While some insight is still unused, the choice is one not used before. */
  lemma SelectFresh(insights: seq<string>, used: seq<string>, variation: int)
    requires insights != [] && exists x :: x in insights && x !in used
    ensures SelectInsight(insights, used, variation) !in used
  {
    UnusedMembers(insights, used);
    var x :| x in insights && x !in used;
    assert x in Unused(insights, used);
  }

  /** Once every insight is used, the choice cycles through the whole list. */
  lemma SelectFallback(insights: seq<string>, used: seq<string>, variation: int)
    requires insights != [] && forall x :: x in insights ==> x in used
    ensures SelectInsight(insights, used, variation) == insights[(variation - 1) % |insights|]
  {
    WrapIsRemainder(variation - 1, |insights|);
    UnusedMembers(insights, used);
  }

  // ----- compose_tweet -----

  /** `f"{tweet_content}\n\n{article_url}\n\n{hashtag_str}"` */
  function Assemble(content: string, url: string, hashtagStr: string): string {
    content + "\n\n" + url + "\n\n" + hashtagStr
  }

  /** The content before the first blank line of an assembled tweet is the content itself
      when the content holds no blank line of its own and does not end in a line break. */
  lemma FirstSegment(content: string, url: string, hashtagStr: string)
    requires !Contains(content, "\n\n") && (content == [] || content[|content| - 1] != '\n')
    ensures BeforeFirst(Assemble(content, url, hashtagStr), "\n\n") == content
  {
    var t := Assemble(content, url, hashtagStr);
    var i := |content|;
    assert t[i..i + 2] == "\n\n";
    assert OccursAt(t, "\n\n", i);
    FindContains(t, "\n\n");
    var j := Find(t, "\n\n", 0).value;
    forall k | 0 <= k < i
      ensures !OccursAt(t, "\n\n", k)
    {
      NoEarlierBreak(content, url, hashtagStr, k);
    }
  }

  /** No blank line of an assembled tweet starts inside its content. */
  lemma NoEarlierBreak(content: string, url: string, hashtagStr: string, k: int)
    requires !Contains(content, "\n\n") && (content == [] || content[|content| - 1] != '\n')
    requires 0 <= k < |content|
    ensures !OccursAt(Assemble(content, url, hashtagStr), "\n\n", k)
  {
    var t := Assemble(content, url, hashtagStr);
    if k + 1 < |content| {
      assert t[k..k + 2] == content[k..k + 2];
      assert !OccursAt(content, "\n\n", k);
    } else {
      assert t[k] == content[k];
    }
  }

  /** The prompt the model receives for one variation. */
  function PromptFor(insights: seq<string>, themes: seq<string>, variation: int, focus: string,
                     used: seq<string>): ComposePrompt
    requires insights != []
  {
    ComposePrompt(SelectInsight(insights, used, variation), variation, focus,
      AvailableChars(HashtagString(themes)))
  }

  /** The model's text for one variation, stripped and held to the content budget. */
  function TweetContent(insights: seq<string>, themes: seq<string>, variation: int, focus: string,
                        used: seq<string>, llm: ComposePrompt -> string): (c: string)
    requires insights != []
    ensures |c| <= AvailableChars(HashtagString(themes))
    ensures EffectiveCount(c, HashtagString(themes)) <= 280 - 35
    ensures c == [] || !IsSpace(c[|c| - 1])
  {
    AvailableRange(themes);
    var limit := AvailableChars(HashtagString(themes));
    var reply := Strip(llm(PromptFor(insights, themes, variation, focus, used)));
    TruncateEnd(reply, limit);
    Truncate(reply, limit)
  }

  /** `compose_tweet`: the assembled tweet and the one insight it used. */
  function ComposeTweet(url: string, insights: seq<string>, themes: seq<string>, variation: int,
                        focus: string, used: seq<string>, llm: ComposePrompt -> string): (r: (string, seq<string>))
    requires insights != []
    ensures |r.1| == 1 && r.1[0] == SelectInsight(insights, used, variation)
  {
    var c := TweetContent(insights, themes, variation, focus, used, llm);
    (Assemble(c, url, HashtagString(themes)), [SelectInsight(insights, used, variation)])
  }

  /** The layout of a composed tweet: the content, a blank line, the URL, a blank line and
      the hashtags; the part before the first blank line is the content whenever the model
      wrote no blank line of its own. */
  lemma TweetLayout(url: string, insights: seq<string>, themes: seq<string>, variation: int,
                    focus: string, used: seq<string>, llm: ComposePrompt -> string)
    requires insights != []
    ensures var c := TweetContent(insights, themes, variation, focus, used, llm);
      var full := ComposeTweet(url, insights, themes, variation, focus, used, llm).0;
      && full == Assemble(c, url, HashtagString(themes))
      && (!Contains(c, "\n\n") ==> BeforeFirst(full, "\n\n") == c)
  {
    var c := TweetContent(insights, themes, variation, focus, used, llm);
    var h := HashtagString(themes);
    assert ComposeTweet(url, insights, themes, variation, focus, used, llm).0 == Assemble(c, url, h);
    if !Contains(c, "\n\n") {
      assert c == [] || c[|c| - 1] != '\n' by {
        assert IsSpace('\n');
      }
      FirstSegment(c, url, h);
    }
  }

  // ----- compose_multiple_variations -----

  const FocusThemes: seq<string> :=
    ["strategic_value", "systematic_approach", "practical_application", "expert_insights"]

  /** The focus of variation `i` (0-based). */
  function FocusTheme(i: nat): (f: string)
    ensures i < 4 ==> f == FocusThemes[i]
    ensures i >= 4 ==> f == "general"
  {
    if i < |FocusThemes| then FocusThemes[i] else "general"
  }

  /** `[word for word in text.split() if word.startswith('#')]` */
  function HashWords(words: seq<string>): (r: seq<string>)
    ensures |r| <= |words|
    ensures forall k :: 0 <= k < |r| ==> r[k] in words && StartsWith(r[k], "#")
    ensures forall w :: w in words && StartsWith(w, "#") ==> w in r
  {
    if words == [] then []
    else
      var first := if StartsWith(words[0], "#") then [words[0]] else [];
      first + HashWords(words[1..])
  }

  /** Filtering keeps the order of the words: the hashtags of two word lists in a row are
      those of the first followed by those of the second. */
  lemma {:induction false} HashWordsAppend(a: seq<string>, b: seq<string>)
    ensures HashWords(a + b) == HashWords(a) + HashWords(b)
  {
    if a != [] {
      var first := if StartsWith(a[0], "#") then [a[0]] else [];
      assert (a + b)[0] == a[0] && (a + b)[1..] == a[1..] + b;
      assert HashWords(a + b) == first + HashWords(a[1..] + b);
      assert HashWords(a) == first + HashWords(a[1..]);
      HashWordsAppend(a[1..], b);
      AppendAssoc(first, HashWords(a[1..]), HashWords(b));
    } else {
      assert a + b == b;
    }
  }

  /** The tweet record of variation `variation` built from the assembled text, as the batch
      loop builds it. */
  function MakeTweet(articleNumber: int, variation: int, full: string, used: seq<string>,
                     focus: string): (t: Tweet)
    ensures t.articleNumber == articleNumber && t.variationNumber == variation
    ensures t.content == full && t.insightsUsed == used && t.focusTheme == focus
    ensures t.hashtags == HashWords(Words(full))
    ensures t.characterCount == |BeforeFirst(full, "\n\n")| + 23 + |Join(" ", t.hashtags)| + 4
    ensures forall k :: 0 <= k < |t.hashtags| ==> StartsWith(t.hashtags[k], "#")
  {
    var hashtags := HashWords(Words(full));
    var main := BeforeFirst(full, "\n\n");
    Tweet(articleNumber, variation, full, |main| + 23 + |Join(" ", hashtags)| + 4, hashtags, used, focus)
  }

  /** Every secondary hashtag is one word and starts with `#`. */
  lemma TagIsWord(tag: string)
    requires tag in SecondaryTags
    ensures IsWord(tag) && StartsWith(tag, "#")
  {
    TagLetters(tag);
    LetterWord(tag);
    assert tag[..1] == [tag[0]];
  }

  /** The secondary hashtags are `#` and ASCII letters. */
  lemma TagLetters(tag: string)
    requires tag in SecondaryTags
    ensures tag != [] && tag[0] == '#'
    ensures forall c :: c in tag ==> c == '#' || 'A' <= c <= 'z'
  {
  }

  /** A text of `#` and ASCII letters is a word when it is not empty. */
  lemma LetterWord(w: string)
    requires w != [] && forall c :: c in w ==> c == '#' || 'A' <= c <= 'z'
    ensures IsWord(w)
  {
    forall i | 0 <= i < |w|
      ensures !IsSpace(w[i])
    {
      assert w[i] in w;
    }
  }

  /** The words of the hashtag line are the two hashtags; both start with `#` and joining
      them gives the line back. */
  lemma HashtagWords(themes: seq<string>)
    ensures Words(HashtagString(themes)) == Hashtags(themes)
    ensures HashWords(Hashtags(themes)) == Hashtags(themes)
    ensures Join(" ", Hashtags(themes)) == HashtagString(themes)
  {
    var tags := Hashtags(themes);
    TagIsWord(tags[1]);
    LetterWord("#AI");
    assert HashtagString(themes) == "#AI" + " " + tags[1];
    TwoWords("#AI", tags[1]);
    assert StartsWith("#AI", "#");
    HashPair(tags);
    assert Join(" ", tags[1..]) == tags[1];
  }

  /** Two words that both start with `#` are both kept. */
  lemma HashPair(ws: seq<string>)
    requires |ws| == 2 && StartsWith(ws[0], "#") && StartsWith(ws[1], "#")
    ensures HashWords(ws) == ws
  {
    assert ws[1..][1..] == [];
    assert HashWords(ws[1..]) == [ws[1]];
  }

  /** The words of an assembled tweet are those of its content, its URL and its hashtag
      line, in that order. */
  lemma AssembledWords(c: string, url: string, h: string)
    ensures Words(Assemble(c, url, h)) == Words(c) + Words(url) + Words(h)
  {
    assert AllSpace("\n\n");
    WordsAround(c, "\n\n", url);
    WordsAround(c + "\n\n" + url, "\n\n", h);
  }

  /** When content and URL bring no word starting with `#`, the hashtags of an assembled
      tweet are those of its hashtag line. */
  lemma AssembledHashWords(c: string, url: string, h: string)
    requires HashWords(Words(c)) == [] && HashWords(Words(url)) == []
    ensures HashWords(Words(Assemble(c, url, h))) == HashWords(Words(h))
  {
    AssembledWords(c, url, h);
    HashWordsAppend(Words(c), Words(url));
    HashWordsAppend(Words(c) + Words(url), Words(h));
  }

  /** A tweet record built from content, URL and hashtag line, where neither the content
      nor the URL brings a blank line or a word starting with `#`: its hashtags are the words
      of the hashtag line and its count is the effective length of content and hashtag line. */
  lemma AssembledRecord(articleNumber: int, variation: int, c: string, url: string, h: string,
                        used: seq<string>, focus: string)
    requires !Contains(c, "\n\n") && (c == [] || c[|c| - 1] != '\n')
    requires HashWords(Words(c)) == [] && HashWords(Words(url)) == []
    requires HashWords(Words(h)) == Words(h) && Join(" ", Words(h)) == h
    ensures var t := MakeTweet(articleNumber, variation, Assemble(c, url, h), used, focus);
      t.hashtags == Words(h) && t.characterCount == EffectiveCount(c, h)
  {
    var full := Assemble(c, url, h);
    var t := MakeTweet(articleNumber, variation, full, used, focus);
    FirstSegment(c, url, h);
    AssembledHashWords(c, url, h);
    assert t.hashtags == Words(h);
    assert t.characterCount == |c| + 23 + |Join(" ", Words(h))| + 4;
  }

  /** The record of a tweet whose content and URL hold no blank line and no word starting
      with `#` carries the two selected hashtags, and its character count is the effective
      length `compose_tweet` computed for its warning. */
  lemma ComposedCount(articleNumber: int, url: string, insights: seq<string>, themes: seq<string>,
                      k: nat, llm: ComposePrompt -> string)
    requires insights != []
    requires var c := TweetContent(insights, themes, k + 1, FocusTheme(k), UsedInsights(insights, k), llm);
      !Contains(c, "\n\n") && HashWords(Words(c)) == [] && HashWords(Words(url)) == []
    ensures var t := TweetAt(articleNumber, url, insights, themes, k, llm);
      var c := TweetContent(insights, themes, k + 1, FocusTheme(k), UsedInsights(insights, k), llm);
      t.hashtags == Hashtags(themes) && t.characterCount == EffectiveCount(c, HashtagString(themes))
  {
    var used := UsedInsights(insights, k);
    var c := TweetContent(insights, themes, k + 1, FocusTheme(k), used, llm);
    var h := HashtagString(themes);
    var tags := Hashtags(themes);
    TweetLayout(url, insights, themes, k + 1, FocusTheme(k), used, llm);
    HashtagWords(themes);
    assert c == [] || c[|c| - 1] != '\n' by {
      assert IsSpace('\n');
    }
    AssembledRecord(articleNumber, k + 1, c, url, h, [SelectInsight(insights, used, k + 1)], FocusTheme(k));
  }

  /** The insights the first `n` variations feature, each chosen from those not yet used. */
  function UsedInsights(insights: seq<string>, n: nat): (used: seq<string>)
    requires insights != [] || n == 0
    ensures |used| == n
    ensures forall k :: 0 <= k < n ==> used[k] in insights
    decreases n
  {
    if n == 0 then []
    else
      var before := UsedInsights(insights, n - 1);
      before + [SelectInsight(insights, before, n)]
  }

  /** The tweet at position `k` (0-based) of a batch, variation `k + 1`. */
  function TweetAt(articleNumber: int, url: string, insights: seq<string>, themes: seq<string>,
                   k: nat, llm: ComposePrompt -> string): (t: Tweet)
    requires insights != []
    ensures t.articleNumber == articleNumber && t.variationNumber == k + 1
    ensures t.focusTheme == FocusTheme(k)
  {
    var used := UsedInsights(insights, k);
    var composed := ComposeTweet(url, insights, themes, k + 1, FocusTheme(k), used, llm);
    MakeTweet(articleNumber, k + 1, composed.0, composed.1, FocusTheme(k))
  }

  /** The entries `make(0), .., make(n - 1)`, built one per loop iteration. */
  function Entries<T>(n: nat, make: nat -> T): (r: seq<T>)
    ensures |r| == n
    decreases n
  {
    if n == 0 then [] else Entries(n - 1, make) + [make(n - 1)]
  }

  lemma {:induction false} EntryAt<T>(n: nat, make: nat -> T, k: nat)
    requires k < n
    ensures Entries(n, make)[k] == make(k)
    decreases n
  {
    if k < n - 1 {
      EntryAt(n - 1, make, k);
    }
  }

  /** The tweets of a batch, position by position. */
  function TweetMaker(articleNumber: int, url: string, insights: seq<string>, themes: seq<string>,
                      llm: ComposePrompt -> string): nat -> Tweet
    requires insights != []
  {
    (k: nat) => TweetAt(articleNumber, url, insights, themes, k, llm)
  }

  /** The first `n` tweets of a batch. */
  function Batch(articleNumber: int, url: string, insights: seq<string>, themes: seq<string>,
                 n: nat, llm: ComposePrompt -> string): (tweets: seq<Tweet>)
    requires insights != [] || n == 0
    ensures |tweets| == n
  {
    if n == 0 then [] else Entries(n, TweetMaker(articleNumber, url, insights, themes, llm))
  }

  /** One more variation appends the tweet composed with the insights used so far. */
  lemma BatchStep(articleNumber: int, url: string, insights: seq<string>, themes: seq<string>,
                  n: nat, llm: ComposePrompt -> string)
    requires insights != []
    ensures var composed := ComposeTweet(url, insights, themes, n + 1, FocusTheme(n), UsedInsights(insights, n), llm);
      Batch(articleNumber, url, insights, themes, n + 1, llm)
        == Batch(articleNumber, url, insights, themes, n, llm)
           + [MakeTweet(articleNumber, n + 1, composed.0, composed.1, FocusTheme(n))]
  {
    var make := TweetMaker(articleNumber, url, insights, themes, llm);
    assert Entries(n + 1, make) == Entries(n, make) + [make(n)];
  }

  /** `compose_multiple_variations`: one tweet per variation, threading the used insights
      through; an empty insight list fails at the first variation. */
  method ComposeMultipleVariations(articleNumber: int, articleUrl: string, insights: seq<string>,
                                   themes: seq<string>, numVariations: nat,
                                   llm: ComposePrompt -> string)
    returns (r: Result<seq<Tweet>, ComposeError>)
    ensures r.Err? <==> insights == [] && numVariations > 0
    ensures r.Ok? ==> r.value == Batch(articleNumber, articleUrl, insights, themes, numVariations, llm)
  {
    var tweets: seq<Tweet> := [];
    var used: seq<string> := [];
    for i := 0 to numVariations
      invariant i > 0 ==> insights != []
      invariant tweets == Batch(articleNumber, articleUrl, insights, themes, i, llm)
      invariant used == UsedInsights(insights, i)
    {
      var focus := FocusTheme(i);
      if insights == [] {
        return Err(NoInsights);
      }
      var composed := ComposeTweet(articleUrl, insights, themes, i + 1, focus, used, llm);
      used := used + composed.1;
      var tweet := MakeTweet(articleNumber, i + 1, composed.0, composed.1, focus);
      BatchStep(articleNumber, articleUrl, insights, themes, i, llm);
      tweets := tweets + [tweet];
    }
    return Ok(tweets);
  }

  // ----- the insights across a batch -----

  /** The used insights of `n` variations: those of `n - 1`, then variation `n`'s choice. */
  lemma UsedSnoc(insights: seq<string>, n: nat)
    requires insights != [] && n > 0
    ensures var u := UsedInsights(insights, n); var before := UsedInsights(insights, n - 1);
      u[..n - 1] == before && u[n - 1] == SelectInsight(insights, before, n)
  {
  }

  /** Later variations never change earlier choices: the first `j` used insights of any
      longer batch are those of a batch of `j`. */
  lemma {:induction false} UsedPrefix(insights: seq<string>, j: nat, n: nat)
    requires insights != [] && j <= n
    ensures UsedInsights(insights, n)[..j] == UsedInsights(insights, j)
    decreases n
  {
    if j < n {
      var u, before := UsedInsights(insights, n), UsedInsights(insights, n - 1);
      UsedPrefix(insights, j, n - 1);
      assert before[..j] == UsedInsights(insights, j);
      UsedSnoc(insights, n);
      PrefixOfPrefix(u, before, j);
      assert u[..j] == before[..j];
    } else {
      TakeAll(UsedInsights(insights, n));
      assert UsedInsights(insights, n)[..j] == UsedInsights(insights, j);
    }
  }

  /** Entry `k` of the used insights is the insight variation `k + 1` chose. */
  lemma UsedAt(insights: seq<string>, k: nat, n: nat)
    requires insights != [] && k < n
    ensures UsedInsights(insights, n)[k] == UsedInsights(insights, k + 1)[k]
  {
    UsedPrefix(insights, k + 1, n);
    var u := UsedInsights(insights, n);
    assert u[k] == u[..k + 1][k];
  }

  /** The shape of a batch: `n` tweets of the article, numbered 1..n, with the focus of their
      position, each using exactly one insight, the one recorded at its position. */
  lemma BatchShape(articleNumber: int, url: string, insights: seq<string>, themes: seq<string>,
                   n: nat, llm: ComposePrompt -> string)
    requires insights != []
    ensures var tweets := Batch(articleNumber, url, insights, themes, n, llm);
      && |tweets| == n
      && forall i :: 0 <= i < n ==>
        && tweets[i].articleNumber == articleNumber && tweets[i].variationNumber == i + 1
        && tweets[i].focusTheme == FocusTheme(i)
        && tweets[i].insightsUsed == [UsedInsights(insights, n)[i]]
  {
    var tweets := Batch(articleNumber, url, insights, themes, n, llm);
    forall i | 0 <= i < n
      ensures && tweets[i].articleNumber == articleNumber && tweets[i].variationNumber == i + 1
              && tweets[i].focusTheme == FocusTheme(i)
              && tweets[i].insightsUsed == [UsedInsights(insights, n)[i]]
    {
      var make := TweetMaker(articleNumber, url, insights, themes, llm);
      EntryAt(n, make, i);
      assert tweets[i] == TweetAt(articleNumber, url, insights, themes, i, llm);
      UsedAt(insights, i, n);
    }
  }

  /** An insight list with more distinct values than `used` has entries holds one not used. */
  lemma SomeUnused(insights: seq<string>, used: seq<string>)
    requires |used| < |SetOf(insights)|
    ensures exists x :: x in insights && x !in used
  {
    if forall x :: x in insights ==> x in used {
      assert SetOf(insights) <= SetOf(used);
      SubsetSize(SetOf(insights), SetOf(used));
      SetSizeDistinct(used);
    }
  }

  /** While fewer variations than distinct insights came before, variation `j + 1` features
      an insight none of them used. */
  lemma UsedFresh(insights: seq<string>, j: nat, n: nat)
    requires insights != [] && j < n && j < |SetOf(insights)|
    ensures UsedInsights(insights, n)[j] !in UsedInsights(insights, n)[..j]
  {
    var before := UsedInsights(insights, j);
    UsedPrefix(insights, j, n);
    UsedPrefix(insights, j + 1, n);
    UsedSnoc(insights, j + 1);
    SomeUnused(insights, before);
    SelectFresh(insights, before, j + 1);
    var u := UsedInsights(insights, n);
    assert u[j] == u[..j + 1][j];
  }

  /** With at least as many distinct insights as variations, no insight is used twice. */
  lemma UsedDistinct(insights: seq<string>, n: nat)
    requires insights != [] && n <= |SetOf(insights)|
    ensures Distinct(UsedInsights(insights, n))
  {
    var u := UsedInsights(insights, n);
    forall i, j | 0 <= i < j < n
      ensures u[i] != u[j]
    {
      UsedFresh(insights, j, n);
      assert u[i] == u[..j][i];
    }
  }

  /** A set strictly inside another is smaller. */
  lemma StrictSubsetSize(a: set<string>, b: set<string>)
    requires a <= b && a != b
    ensures |a| < |b|
  {
    var x :| x in b && x !in a;
    SubsetSize(a, b - {x});
  }

  /** Once every distinct insight has been used, every later variation reuses one instead of
      failing: with `d` distinct insights, each variation after the `d`-th features an insight
      already used by the first `d`. */
  lemma UsedReuses(insights: seq<string>, n: nat, j: nat)
    requires insights != [] && |SetOf(insights)| <= j < n
    ensures var d := |SetOf(insights)|; var used := UsedInsights(insights, n);
      used[j] in used[..d]
  {
    var d := |SetOf(insights)|;
    var first := UsedInsights(insights, d);
    var all := UsedInsights(insights, n);
    UsedDistinct(insights, d);
    SetSizeDistinct(first);
    assert SetOf(first) <= SetOf(insights);
    if SetOf(first) != SetOf(insights) {
      StrictSubsetSize(SetOf(first), SetOf(insights));
    }
    UsedPrefix(insights, d, n);
    assert all[j] in insights;
    assert all[j] in SetOf(insights);
    assert all[j] in SetOf(first);
  }

}
