/** The orchestration of mcp_tweet_processor_workflow.py: the persisted state, the weekly
    run that reads, analyses, composes and posts one tweet, the pointer advance after a
    confirmed post, and the preview of the coming weeks. The document reader, both language
    models, the Twitter API's answer, the clock and the state file are inputs. */
module TweetWorkflow {
  import opened Common
  import opened Rotation
  import opened GoogleDriveServer
  import opened ContentAnalyzer
  import opened TweetComposer
  import Twitter

  /** The state dictionary. `analyses` holds the `analysis_<N>` entries under N. */
  datatype State = State(
    currentArticle: int, currentVariation: int, lastPosted: Option<string>, totalPosts: int,
    articlesCache: seq<Article>, analyses: map<int, ArticleInsights>)

  /** `_load_state` without a state file. */
  const DefaultState: State := State(1, 1, None, 0, [], map[])

  /** `_load_state`: the saved state, or the defaults when there is no state file. */
  function LoadState(file: Option<State>): (s: State)
    ensures file.None? ==> s == DefaultState && s.currentArticle == 1 && s.currentVariation == 1
    ensures file.Some? ==> s == file.value
  {
    match file
    case None => DefaultState
    case Some(saved) => saved
  }

  /** The credentials a fresh `TwitterClient()` reads from the environment. */
  datatype Credentials = Credentials(apiKey: string, apiSecret: string, accessToken: string, accessTokenSecret: string)

  predicate Complete(c: Credentials) {
    c.apiKey != "" && c.apiSecret != "" && c.accessToken != "" && c.accessTokenSecret != ""
  }

  /** Why a run returns status "error". */
  datatype RunError =
    | ArticleNotFound(number: int)
    /** `compose_multiple_variations` with no insights divides by zero */
    | ComposeFailed
    /** `tweets[current_variation - 1]` outside the 4 tweets */
    | VariationOutOfRange(variation: int)
    /** `post_tweet` raised */
    | PostRejected(error: Twitter.PostError)
    /** the post result has no tweet id: "Failed to post tweet" */
    | PostFailed

  datatype PostOutcome = Posted(record: Twitter.PostRecord) | Simulated(postedAt: string)

  /** The success result of `run_weekly_post`. */
  datatype RunReport = RunReport(
    articleNumber: int, variationNumber: int, tweet: Tweet, post: PostOutcome,
    nextArticle: int, nextVariation: int)

  /** Python's `seq[i]` on a list of length `len`: negative indices count from the end. */
  function PyIndex(i: int, len: nat): (k: Option<nat>)
    ensures k.Some? <==> -(len as int) <= i < len
    ensures k.Some? ==> k.value < len && (k.value == i || k.value == len + i)
  {
    if 0 <= i < len then Some(i)
    else if -(len as int) <= i < 0 then Some(len + i)
    else None
  }

  /** Step 1: the article list is read only when the cache is empty. */
  function WithArticles(s: State, fetched: seq<Article>): (t: State)
    ensures s.articlesCache != [] ==> t == s
    ensures s.articlesCache == [] ==> t == s.(articlesCache := fetched)
  {
    if s.articlesCache == [] then s.(articlesCache := fetched) else s
  }

  /** The two agents as the workflow calls them: `analyze_article` on an article, and
      `compose_multiple_variations` with 4 variations on an article and its analysis. */
  datatype Agents = Agents(analyze: Article -> ArticleInsights, compose: (Article, ArticleInsights) -> seq<Tweet>)

  /** `analyze_article` of this model, with `analyzer` as its language model. */
  function AnalyzerOf(analyzer: string -> AnalyzerReply): Article -> ArticleInsights {
    (a: Article) => InsightsRecord(a, ReplyAnalysis(analyzer(PromptContent(a))))
  }

  /** `compose_multiple_variations` with 4 variations, with `composer` as its language model;
      the source raises on an empty insight list, which the workflow checks first. */
  function ComposerOf(composer: ComposePrompt -> string): (Article, ArticleInsights) -> seq<Tweet> {
    (a: Article, analysis: ArticleInsights) =>
      if analysis.keyInsights == [] then []
      else Batch(a.number, a.url, analysis.keyInsights, analysis.themes, 4, composer)
  }

  function AgentsOf(analyzer: string -> AnalyzerReply, composer: ComposePrompt -> string): Agents {
    Agents(AnalyzerOf(analyzer), ComposerOf(composer))
  }

  /** With the agents of this model, the composed list holds 4 tweets of the article, the
      tweet at index `k` being variation `k + 1`. */
  lemma AgentsCompose(analyzer: string -> AnalyzerReply, composer: ComposePrompt -> string,
                      article: Article, analysis: ArticleInsights)
    requires analysis.keyInsights != []
    ensures var tweets := AgentsOf(analyzer, composer).compose(article, analysis);
      && |tweets| == 4
      && forall k :: 0 <= k < 4 ==>
        tweets[k].articleNumber == article.number && tweets[k].variationNumber == k + 1
  {
    BatchShape(article.number, article.url, analysis.keyInsights, analysis.themes, 4, composer);
  }

  /** Step 3: the analysis of article `n` is computed only when `analysis_<n>` is absent. */
  function WithAnalysis(analyses: map<int, ArticleInsights>, n: int, article: Article,
                        analyze: Article -> ArticleInsights): (m: map<int, ArticleInsights>)
    ensures n in m && m.Keys == analyses.Keys + {n}
    ensures n in analyses ==> m == analyses
    ensures n !in analyses ==> m[n] == analyze(article)
    ensures forall k :: k in analyses ==> m[k] == analyses[k]
  {
    if n in analyses then analyses else analyses[n := analyze(article)]
  }

  /** What a run leaves behind: the new state, whether it was saved, and the result. */
  datatype RunOutcome = RunOutcome(state: State, saved: bool, result: Result<RunReport, RunError>)

  /** A confirmed post: the run succeeded and really posted. */
  predicate Confirmed(o: RunOutcome) {
    o.result.Ok? && o.result.value.post.Posted?
  }

  /** The pointer, the post count and the last posting time after a run from `s`: after a
      confirmed post the pointer has advanced one step over the cached articles, the post
      is counted and the time recorded, and the report names the new pointer; after any
      other run all three are as they were. */
  predicate Bookkeeping(s: State, o: RunOutcome, now: string) {
    var p := Advance(Pointer(s.currentArticle, s.currentVariation), |o.state.articlesCache|);
    if Confirmed(o) then
      && o.state.currentArticle == p.article && o.state.currentVariation == p.variation
      && o.state.totalPosts == s.totalPosts + 1 && o.state.lastPosted == Some(now)
      && o.result.value.nextArticle == p.article && o.result.value.nextVariation == p.variation
    else
      && o.state.currentArticle == s.currentArticle && o.state.currentVariation == s.currentVariation
      && o.state.totalPosts == s.totalPosts && o.state.lastPosted == s.lastPosted
  }

  /** Steps 5 and 6 for the selected tweet: no change when simulating; after a post the API
      confirmed with an id, the post is counted and the pointer advances over the cached
      articles. */
  function PostStage(s: State, saved: bool, tweet: Tweet, postToTwitter: bool,
                     creds: Credentials, reply: Twitter.ApiReply, now: string): (o: RunOutcome)
    ensures o.state.articlesCache == s.articlesCache && o.state.analyses == s.analyses
    ensures Bookkeeping(s, o, now)
    ensures o.saved <==> saved || Confirmed(o)
    ensures Confirmed(o) ==> postToTwitter && Complete(creds) && reply.Created? && reply.id != ""
    ensures o.result.Ok? ==>
      && o.result.value.tweet == tweet
      && o.result.value.articleNumber == s.currentArticle
      && o.result.value.variationNumber == s.currentVariation
      && (o.result.value.post.Simulated? <==> !postToTwitter)
  {
    var n, v := s.currentArticle, s.currentVariation;
    if !postToTwitter then RunOutcome(s, saved, Ok(RunReport(n, v, tweet, Simulated(now), n, v)))
    else match Twitter.PostResult(Complete(creds), tweet.content, reply, now)
      case Err(e) => RunOutcome(s, saved, Err(PostRejected(e)))
      case Ok(record) =>
        if record.tweetId == "" then RunOutcome(s, saved, Err(PostFailed))
        else
          var p := Advance(Pointer(n, v), |s.articlesCache|);
          var s3 := s.(lastPosted := Some(now), totalPosts := s.totalPosts + 1,
                       currentArticle := p.article, currentVariation := p.variation);
          RunOutcome(s3, true, Ok(RunReport(n, v, tweet, Posted(record), p.article, p.variation)))
  }

  /** Step 4: compose the variations and take the one the pointer's variation selects,
      `tweets[current_variation - 1]`. */
  function ComposeStage(s: State, saved: bool, article: Article, agents: Agents,
                        postToTwitter: bool, creds: Credentials, reply: Twitter.ApiReply, now: string): (o: RunOutcome)
    requires s.currentArticle in s.analyses
    ensures o.state.articlesCache == s.articlesCache && o.state.analyses == s.analyses
    ensures Bookkeeping(s, o, now)
    ensures o.saved <==> saved || Confirmed(o)
    ensures o.result == Err(ComposeFailed) <==> s.analyses[s.currentArticle].keyInsights == []
    ensures o.result.Ok? ==>
      var tweets := agents.compose(article, s.analyses[s.currentArticle]);
      && PyIndex(s.currentVariation - 1, |tweets|).Some?
      && o.result.value.tweet == tweets[PyIndex(s.currentVariation - 1, |tweets|).value]
      && o.result.value.articleNumber == s.currentArticle
      && o.result.value.variationNumber == s.currentVariation
  {
    var analysis := s.analyses[s.currentArticle];
    if analysis.keyInsights == [] then RunOutcome(s, saved, Err(ComposeFailed))
    else SelectStage(s, saved, agents.compose(article, analysis), postToTwitter, creds, reply, now)
  }

  /** The tweet `tweets[current_variation - 1]` is posted, with Python's indexing: a
      variation outside the list is an error and changes nothing. */
  function SelectStage(s: State, saved: bool, tweets: seq<Tweet>,
                       postToTwitter: bool, creds: Credentials, reply: Twitter.ApiReply, now: string): (o: RunOutcome)
    ensures o.state.articlesCache == s.articlesCache && o.state.analyses == s.analyses
    ensures Bookkeeping(s, o, now)
    ensures o.saved <==> saved || Confirmed(o)
    ensures o.result == Err(VariationOutOfRange(s.currentVariation)) <==> PyIndex(s.currentVariation - 1, |tweets|).None?
    ensures o.result.Ok? ==>
      && PyIndex(s.currentVariation - 1, |tweets|).Some?
      && o.result.value.tweet == tweets[PyIndex(s.currentVariation - 1, |tweets|).value]
      && o.result.value.articleNumber == s.currentArticle
      && o.result.value.variationNumber == s.currentVariation
  {
    match PyIndex(s.currentVariation - 1, |tweets|)
    case None => RunOutcome(s, saved, Err(VariationOutOfRange(s.currentVariation)))
    case Some(k) => PostStage(s, saved, tweets[k], postToTwitter, creds, reply, now)
  }

  /** Steps 1 to 3 of `run_weekly_post`: the state with the article cache filled and the
      current article's analysis stored, and whether that saved the state. */
  function Prepared(s: State, fetched: seq<Article>, article: Article, agents: Agents): (t: State)
    ensures t.currentArticle in t.analyses
  {
    var s1 := WithArticles(s, fetched);
    s1.(analyses := WithAnalysis(s1.analyses, s.currentArticle, article, agents.analyze))
  }

  /** `run_weekly_post`, from the state on entry. */
  function WeeklyRun(s: State, postToTwitter: bool, fetched: seq<Article>, agents: Agents,
                     creds: Credentials, reply: Twitter.ApiReply, now: string): (o: RunOutcome)
  {
    var articles := WithArticles(s, fetched).articlesCache;
    match IndexOfNumber(articles, s.currentArticle)
    case None => RunOutcome(WithArticles(s, fetched), s.articlesCache == [], Err(ArticleNotFound(s.currentArticle)))
    case Some(i) =>
      ComposeStage(Prepared(s, fetched, articles[i], agents),
                   s.articlesCache == [] || s.currentArticle !in s.analyses, articles[i],
                   agents, postToTwitter, creds, reply, now)
  }

  /** The pointer moves only after a confirmed post, and then by exactly one step, with the
      post counted; every other run leaves the pointer, the count and the last posting
      time as they were. A confirmed post needs posting enabled, complete credentials and
      an id from the API. */
  lemma RunAdvancesOnlyOnPost(s: State, postToTwitter: bool, fetched: seq<Article>, agents: Agents,
                              creds: Credentials, reply: Twitter.ApiReply, now: string)
    ensures var o := WeeklyRun(s, postToTwitter, fetched, agents, creds, reply, now);
      && Bookkeeping(s, o, now)
      && (Confirmed(o) ==> postToTwitter && Complete(creds) && reply.Created? && reply.id != "" && o.saved)
  {
    var articles := WithArticles(s, fetched).articlesCache;
    match IndexOfNumber(articles, s.currentArticle)
    case None =>
    case Some(i) =>
      var t := Prepared(s, fetched, articles[i], agents);
      assert Pointer(t.currentArticle, t.currentVariation) == Pointer(s.currentArticle, s.currentVariation);
  }

  /** A simulated run never moves the pointer: it reports the pointer it started from as
      the next one. */
  lemma SimulationKeepsPointer(s: State, fetched: seq<Article>, agents: Agents,
                               creds: Credentials, reply: Twitter.ApiReply, now: string)
    ensures var o := WeeklyRun(s, false, fetched, agents, creds, reply, now);
      && o.state.currentArticle == s.currentArticle && o.state.currentVariation == s.currentVariation
      && (o.result.Ok? ==>
        && o.result.value.post.Simulated?
        && o.result.value.nextArticle == s.currentArticle
        && o.result.value.nextVariation == s.currentVariation)
  {
    RunAdvancesOnlyOnPost(s, false, fetched, agents, creds, reply, now);
  }

  /** The run fails with `ArticleNotFound` exactly when no cached article has the pointer's
      number. */
  lemma RunNotFound(s: State, postToTwitter: bool, fetched: seq<Article>, agents: Agents,
                    creds: Credentials, reply: Twitter.ApiReply, now: string)
    ensures var o := WeeklyRun(s, postToTwitter, fetched, agents, creds, reply, now);
      o.result == Err(ArticleNotFound(s.currentArticle)) <==>
        forall a :: a in WithArticles(s, fetched).articlesCache ==> a.number != s.currentArticle
  {
    var articles := WithArticles(s, fetched).articlesCache;
    match IndexOfNumber(articles, s.currentArticle)
    case None =>
    case Some(i) =>
      assert articles[i] in articles;
  }

  /** Both caches are reused: a non-empty article cache is kept as it is, and every analysis
      already stored is kept as it is; at most the current article's analysis is added. */
  lemma RunReusesCaches(s: State, postToTwitter: bool, fetched: seq<Article>, agents: Agents,
                        creds: Credentials, reply: Twitter.ApiReply, now: string)
    ensures var o := WeeklyRun(s, postToTwitter, fetched, agents, creds, reply, now);
      && o.state.articlesCache == WithArticles(s, fetched).articlesCache
      && (s.articlesCache != [] ==> o.state.articlesCache == s.articlesCache)
      && (forall k :: k in s.analyses ==> k in o.state.analyses && o.state.analyses[k] == s.analyses[k])
      && o.state.analyses.Keys <= s.analyses.Keys + {s.currentArticle}
  {
    var articles := WithArticles(s, fetched).articlesCache;
    match IndexOfNumber(articles, s.currentArticle)
    case None =>
    case Some(i) =>
      var t := Prepared(s, fetched, articles[i], agents);
      assert t.analyses == WithAnalysis(s.analyses, s.currentArticle, articles[i], agents.analyze);
  }

  /** A pointer in range over the cached articles stays in range. */
  lemma RunKeepsPointerInRange(s: State, postToTwitter: bool, fetched: seq<Article>, agents: Agents,
                               creds: Credentials, reply: Twitter.ApiReply, now: string)
    requires InRange(Pointer(s.currentArticle, s.currentVariation), |WithArticles(s, fetched).articlesCache|)
    ensures var o := WeeklyRun(s, postToTwitter, fetched, agents, creds, reply, now);
      InRange(Pointer(o.state.currentArticle, o.state.currentVariation), |o.state.articlesCache|)
  {
    RunAdvancesOnlyOnPost(s, postToTwitter, fetched, agents, creds, reply, now);
    RunReusesCaches(s, postToTwitter, fetched, agents, creds, reply, now);
  }

  /** The composer returns, for an article with insights, 4 tweets of that article in
      variation order. */
  ghost predicate ComposesVariations(agents: Agents) {
    forall a: Article, analysis: ArticleInsights :: analysis.keyInsights != [] ==>
      var tweets := agents.compose(a, analysis);
      |tweets| == 4 &&
      forall k :: 0 <= k < 4 ==> tweets[k].articleNumber == a.number && tweets[k].variationNumber == k + 1
  }

  /** The agents of this model compose that way. */
  lemma ModelComposesVariations(analyzer: string -> AnalyzerReply, composer: ComposePrompt -> string)
    ensures ComposesVariations(AgentsOf(analyzer, composer))
  {
    forall a: Article, analysis: ArticleInsights | analysis.keyInsights != []
      ensures var tweets := AgentsOf(analyzer, composer).compose(a, analysis);
        |tweets| == 4 &&
        forall k :: 0 <= k < 4 ==> tweets[k].articleNumber == a.number && tweets[k].variationNumber == k + 1
    {
      AgentsCompose(analyzer, composer, a, analysis);
    }
  }

  /** A successful run reports the tweet of the pointer's article and variation, whenever
      the variation is 1 to 4. */
  lemma RunSelectsVariation(s: State, postToTwitter: bool, fetched: seq<Article>, agents: Agents,
                            creds: Credentials, reply: Twitter.ApiReply, now: string)
    requires ComposesVariations(agents)
    requires 1 <= s.currentVariation <= 4
    ensures var o := WeeklyRun(s, postToTwitter, fetched, agents, creds, reply, now);
      o.result.Ok? ==>
        && o.result.value.articleNumber == s.currentArticle
        && o.result.value.variationNumber == s.currentVariation
        && o.result.value.tweet.articleNumber == s.currentArticle
        && o.result.value.tweet.variationNumber == s.currentVariation
  {
    var articles := WithArticles(s, fetched).articlesCache;
    match IndexOfNumber(articles, s.currentArticle)
    case None =>
    case Some(i) =>
      var t := Prepared(s, fetched, articles[i], agents);
      var analysis := t.analyses[s.currentArticle];
      if analysis.keyInsights != [] {
        var tweets := agents.compose(articles[i], analysis);
        assert |tweets| == 4;
        assert tweets[s.currentVariation - 1].variationNumber == s.currentVariation;
      }
  }

  // ----- the preview -----

  /** One entry of `generate_pipeline_preview`; dates are day numbers. */
  datatype PreviewItem = PreviewItem(
    week: int, postDay: int, articleNumber: int, variationNumber: int,
    articleTitle: string, tweetContent: string, characterCount: int)

  datatype PreviewStatus = Running | Stopped | Failed(error: RunError)

  /** The local variables of the preview loop after some weeks. */
  datatype PreviewLoop = PreviewLoop(
    analyses: map<int, ArticleInsights>, pointer: Pointer, items: seq<PreviewItem>,
    saved: bool, status: PreviewStatus)

  /** The fixed inputs of the preview loop. */
  datatype PreviewPlan = PreviewPlan(
    articles: seq<Article>, agents: Agents, today: int, daysAhead: int)

  /** One iteration for week `week` (0-based): stop when the article is missing, otherwise
      analyse (or reuse), compose, record the entry and advance the local pointer. After a
      stop or a failure nothing changes; a successful week appends exactly one entry, for
      that week and the pointer on entry, and advances the pointer; stored analyses are
      kept. */
  function PreviewStep(plan: PreviewPlan, loop: PreviewLoop, week: nat): (next: PreviewLoop)
    ensures !loop.status.Running? ==> next == loop
    ensures !next.status.Running? ==> next.items == loop.items
    ensures next.status.Running? ==>
      && loop.status.Running?
      && next.pointer == Advance(loop.pointer, |plan.articles|)
      && |next.items| == |loop.items| + 1
      && next.items[..|loop.items|] == loop.items
      && next.items[|loop.items|].week == week + 1
      && next.items[|loop.items|].postDay == PostDay(plan.today, plan.daysAhead, week)
      && next.items[|loop.items|].articleNumber == loop.pointer.article
      && next.items[|loop.items|].variationNumber == loop.pointer.variation
    ensures forall k :: k in loop.analyses ==> k in next.analyses && next.analyses[k] == loop.analyses[k]
    ensures loop.saved ==> next.saved
  {
    if !loop.status.Running? then loop
    else
      var p := loop.pointer;
      match IndexOfNumber(plan.articles, p.article)
      case None => loop.(status := Stopped)
      case Some(i) =>
        var article := plan.articles[i];
        var analyses := WithAnalysis(loop.analyses, p.article, article, plan.agents.analyze);
        var saved := loop.saved || p.article !in loop.analyses;
        var analysis := analyses[p.article];
        if analysis.keyInsights == [] then PreviewLoop(analyses, p, loop.items, saved, Failed(ComposeFailed))
        else PreviewPick(plan, p, article, plan.agents.compose(article, analysis), analyses, loop.items, saved, week)
  }

  /** The entry for week `week` (0-based) from the composed tweets: tweet
      `current_variation - 1` with Python's indexing, or a failure that records nothing when
      that index is out of range. An entry carries the week, its posting day, the pointer,
      the article's title and that tweet's text and length, and the pointer advances. */
  function PreviewPick(plan: PreviewPlan, p: Pointer, article: Article, tweets: seq<Tweet>,
                       analyses: map<int, ArticleInsights>, items: seq<PreviewItem>, saved: bool, week: nat): (next: PreviewLoop)
    ensures next.analyses == analyses && next.saved == saved
    ensures next.status.Running? <==> PyIndex(p.variation - 1, |tweets|).Some?
    ensures !next.status.Running? ==>
      next.status == Failed(VariationOutOfRange(p.variation)) && next.items == items && next.pointer == p
    ensures next.status.Running? ==>
      var t := tweets[PyIndex(p.variation - 1, |tweets|).value];
      && next.pointer == Advance(p, |plan.articles|)
      && |next.items| == |items| + 1 && next.items[..|items|] == items
      && next.items[|items|] == PreviewItem(week + 1, PostDay(plan.today, plan.daysAhead, week), p.article,
                                            p.variation, article.title, t.content, t.characterCount)
  {
    match PyIndex(p.variation - 1, |tweets|)
    case None => PreviewLoop(analyses, p, items, saved, Failed(VariationOutOfRange(p.variation)))
    case Some(k) =>
      var item := PreviewItem(week + 1, PostDay(plan.today, plan.daysAhead, week), p.article,
                              p.variation, article.title, tweets[k].content, tweets[k].characterCount);
      assert (items + [item])[..|items|] == items;
      PreviewLoop(analyses, Advance(p, |plan.articles|), items + [item], saved, Running)
  }

  /** The preview loop after `weeks` iterations from the pointer `start`. Its entries are
      on schedule: the tweets the next runs would post, in order. */
  function Preview(plan: PreviewPlan, analyses: map<int, ArticleInsights>, start: Pointer, weeks: nat): (loop: PreviewLoop)
    ensures |loop.items| <= weeks
    ensures loop.status.Running? ==> |loop.items| == weeks
    ensures loop.status.Running? ==> loop.pointer == AdvanceTimes(start, |plan.articles|, weeks)
    ensures Scheduled(plan, start, loop.items)
    decreases weeks
  {
    if weeks == 0 then PreviewLoop(analyses, start, [], false, Running)
    else
      var before := Preview(plan, analyses, start, weeks - 1);
      var next := PreviewStep(plan, before, weeks - 1);
      if next.status.Running? then ScheduledSnoc(plan, start, before.items, next.items); next
      else next
  }

  /** A preview of `weeks > 0` weeks is one step after the preview of the weeks before. */
  lemma PreviewUnfold(plan: PreviewPlan, analyses: map<int, ArticleInsights>, start: Pointer, weeks: nat)
    requires weeks > 0
    ensures Preview(plan, analyses, start, weeks) == PreviewStep(plan, Preview(plan, analyses, start, weeks - 1), weeks - 1)
  {
  }

  /** Entry `i` is week `i + 1`, posted `i` weeks after the first posting day, for the
      pointer advanced `i` times from `start`. */
  ghost predicate Scheduled(plan: PreviewPlan, start: Pointer, items: seq<PreviewItem>) {
    forall i :: 0 <= i < |items| ==>
      && items[i].week == i + 1
      && items[i].postDay == PostDay(plan.today, plan.daysAhead, i)
      && Pointer(items[i].articleNumber, items[i].variationNumber) == AdvanceTimes(start, |plan.articles|, i)
  }

  /** Appending the entry of the next week keeps the entries on schedule. */
  lemma ScheduledSnoc(plan: PreviewPlan, start: Pointer, items: seq<PreviewItem>, next: seq<PreviewItem>)
    requires Scheduled(plan, start, items)
    requires |next| == |items| + 1 && next[..|items|] == items
    requires var last := next[|items|];
      && last.week == |items| + 1
      && last.postDay == PostDay(plan.today, plan.daysAhead, |items|)
      && Pointer(last.articleNumber, last.variationNumber) == AdvanceTimes(start, |plan.articles|, |items|)
    ensures Scheduled(plan, start, next)
  {
    forall i | 0 <= i < |items| ensures next[i] == items[i] {
      assert next[i] == next[..|items|][i];
    }
  }

  /** The analyses cache only grows: an analysis present before the preview is the one
      it uses and keeps. */
  lemma {:induction false} PreviewKeepsAnalyses(plan: PreviewPlan, analyses: map<int, ArticleInsights>,
                                                start: Pointer, weeks: nat, n: int)
    requires n in analyses
    ensures var loop := Preview(plan, analyses, start, weeks);
      n in loop.analyses && loop.analyses[n] == analyses[n]
    decreases weeks
  {
    if weeks > 0 {
      PreviewKeepsAnalyses(plan, analyses, start, weeks - 1, n);
      PreviewUnfold(plan, analyses, start, weeks);
      StepKeepsAnalysis(plan, Preview(plan, analyses, start, weeks - 1), weeks - 1, n);
    }
  }

  /** One more week keeps a stored analysis. */
  lemma StepKeepsAnalysis(plan: PreviewPlan, before: PreviewLoop, week: nat, n: int)
    requires n in before.analyses
    ensures var after := PreviewStep(plan, before, week);
      n in after.analyses && after.analyses[n] == before.analyses[n]
  {
  }

  /** The work after a stop or a failure is skipped: the loop is unchanged from then on. */
  lemma {:induction false} PreviewHalts(plan: PreviewPlan, analyses: map<int, ArticleInsights>,
                                         start: Pointer, i: nat, weeks: nat)
    requires i <= weeks && !Preview(plan, analyses, start, i).status.Running?
    ensures Preview(plan, analyses, start, weeks) == Preview(plan, analyses, start, i)
    decreases weeks - i
  {
    if i < weeks {
      HaltedStep(plan, analyses, start, i);
      PreviewHalts(plan, analyses, start, i + 1, weeks);
    }
  }

  /** The week after the preview halted at week `i` leaves it as it was. */
  lemma HaltedStep(plan: PreviewPlan, analyses: map<int, ArticleInsights>, start: Pointer, i: nat)
    requires !Preview(plan, analyses, start, i).status.Running?
    ensures Preview(plan, analyses, start, i + 1) == Preview(plan, analyses, start, i)
  {
    PreviewUnfold(plan, analyses, start, i + 1);
    StepHalted(plan, Preview(plan, analyses, start, i), i);
  }

  /** A step after a stop or a failure changes nothing. */
  lemma StepHalted(plan: PreviewPlan, loop: PreviewLoop, week: nat)
    requires !loop.status.Running?
    ensures PreviewStep(plan, loop, week) == loop
  {
  }

  /** The preview stops at the first week whose article is missing: the weeks before it are
      listed and no later week is. */
  lemma PreviewStopsAtMissing(plan: PreviewPlan, analyses: map<int, ArticleInsights>,
                              start: Pointer, i: nat, weeks: nat)
    requires i < weeks
    requires Preview(plan, analyses, start, i).status.Running?
    requires IndexOfNumber(plan.articles, AdvanceTimes(start, |plan.articles|, i).article).None?
    ensures Preview(plan, analyses, start, weeks).status == Stopped
    ensures |Preview(plan, analyses, start, weeks).items| == i
  {
    PreviewHalts(plan, analyses, start, i + 1, weeks);
  }

  /** `POSTING_TIME` as hour and minute. */
  function PostingMinutes(hour: int, minute: int): int {
    hour * 60 + minute
  }

  // ----- the workflow object -----

  class Workflow {
    var documentId: string
    var state: State
    /** The content of `workflow_state.json`; None when there is no file. */
    var stateFile: Option<State>

    /** `__init__`: the state comes from `_load_state`. */
    constructor(documentId: string, stateFile: Option<State>)
      ensures this.documentId == documentId && this.stateFile == stateFile
      ensures state == LoadState(stateFile)
    {
      this.documentId := documentId;
      this.stateFile := stateFile;
      state := LoadState(stateFile);
    }

    /** `_save_state`: the file receives a snapshot of the state. */
    method Save()
      modifies this
      ensures stateFile == Some(state)
      ensures state == old(state) && documentId == old(documentId)
    {
      stateFile := Some(state);
    }

    /** `_update_state_after_post`: the next variation, or variation 1 of the next article
        (article 1 after the last), then save. Only the two pointer fields change. */
    method UpdateStateAfterPost(articleCount: int)
      modifies this
      ensures var p := Advance(Pointer(old(state).currentArticle, old(state).currentVariation), articleCount);
        state == old(state).(currentArticle := p.article, currentVariation := p.variation)
      ensures stateFile == Some(state) && documentId == old(documentId)
    {
      var currentArticle := state.currentArticle;
      var currentVariation := state.currentVariation;
      if currentVariation < 4 {
        state := state.(currentVariation := currentVariation + 1);
      } else {
        state := state.(currentVariation := 1);
        if currentArticle < articleCount {
          state := state.(currentArticle := currentArticle + 1);
        } else {
          state := state.(currentArticle := 1);
        }
      }
      Save();
    }

    /** Steps 5 and 6 of `run_weekly_post` for the selected tweet. A fresh `TwitterClient`
        reads the credentials; only a post the API confirmed with an id changes the state. */
    method Publish(tweet: Tweet, postToTwitter: bool, creds: Credentials,
                   reply: Twitter.ApiReply, now: string, ghost saved: bool)
      returns (r: Result<RunReport, RunError>)
      requires saved ==> stateFile == Some(state)
      modifies this
      ensures var o := PostStage(old(state), saved, tweet, postToTwitter, creds, reply, now);
        && state == o.state && r == o.result
        && stateFile == (if o.saved then Some(state) else old(stateFile))
      ensures documentId == old(documentId)
    {
      var n, v := state.currentArticle, state.currentVariation;
      if !postToTwitter {
        return Ok(RunReport(n, v, tweet, Simulated(now), n, v));
      }
      var client := new Twitter.TwitterClient(creds.apiKey, creds.apiSecret, creds.accessToken, creds.accessTokenSecret);
      var result := client.PostTweet(tweet.content, reply, now);
      if result.Err? {
        return Err(PostRejected(result.error));
      }
      if result.value.tweetId == "" {
        return Err(PostFailed);
      }
      state := state.(lastPosted := Some(now), totalPosts := state.totalPosts + 1);
      UpdateStateAfterPost(|state.articlesCache|);
      return Ok(RunReport(n, v, tweet, Posted(result.value), state.currentArticle, state.currentVariation));
    }

    /** The cached analysis of article `n`, or a new one from the analyzer, stored and saved
        (step 3 of `run_weekly_post`, and the same step of the preview). */
    method AnalysisFor(n: int, article: Article, analyzer: string -> AnalyzerReply, ghost saved: bool)
      returns (analysis: ArticleInsights)
      requires saved ==> stateFile == Some(state)
      modifies this
      ensures state == old(state).(analyses := WithAnalysis(old(state).analyses, n, article, AnalyzerOf(analyzer)))
      ensures analysis == state.analyses[n]
      ensures stateFile == (if saved || n !in old(state).analyses then Some(state) else old(stateFile))
      ensures documentId == old(documentId)
    {
      if n !in state.analyses {
        analysis := AnalyzeArticle(article, analyzer);
        state := state.(analyses := state.analyses[n := analysis]);
        Save();
      } else {
        analysis := state.analyses[n];
      }
    }

    /** Steps 4 to 6 of `run_weekly_post` for the current article and its analysis. */
    method ComposeAndPublish(article: Article, analysis: ArticleInsights, composer: ComposePrompt -> string,
                             postToTwitter: bool, creds: Credentials, reply: Twitter.ApiReply, now: string,
                             ghost agents: Agents, ghost saved: bool)
      returns (r: Result<RunReport, RunError>)
      requires state.currentArticle in state.analyses && analysis == state.analyses[state.currentArticle]
      requires agents.compose == ComposerOf(composer)
      requires saved ==> stateFile == Some(state)
      modifies this
      ensures var o := ComposeStage(old(state), saved, article, agents, postToTwitter, creds, reply, now);
        && state == o.state && r == o.result
        && stateFile == (if o.saved then Some(state) else old(stateFile))
      ensures documentId == old(documentId)
    {
      var composed := ComposeMultipleVariations(article.number, article.url, analysis.keyInsights,
                                                analysis.themes, 4, composer);
      if composed.Err? {
        return Err(ComposeFailed);
      }
      var tweets := composed.value;
      assert tweets == agents.compose(article, analysis);
      r := SelectAndPublish(tweets, postToTwitter, creds, reply, now, saved);
    }

    /** Step 4's `tweets[current_variation - 1]`, then steps 5 and 6 for that tweet. */
    method SelectAndPublish(tweets: seq<Tweet>, postToTwitter: bool, creds: Credentials,
                            reply: Twitter.ApiReply, now: string, ghost saved: bool)
      returns (r: Result<RunReport, RunError>)
      requires saved ==> stateFile == Some(state)
      modifies this
      ensures var o := SelectStage(old(state), saved, tweets, postToTwitter, creds, reply, now);
        && state == o.state && r == o.result
        && stateFile == (if o.saved then Some(state) else old(stateFile))
      ensures documentId == old(documentId)
    {
      var currentVariation := state.currentVariation;
      var index := PyIndex(currentVariation - 1, |tweets|);
      if index.None? {
        return Err(VariationOutOfRange(currentVariation));
      }
      r := Publish(tweets[index.value], postToTwitter, creds, reply, now, saved);
    }

    /** `run_weekly_post`: every exception of the source is an error result; the state
        changes made before it (the cache, an analysis) stay, and were saved. */
    method RunWeeklyPost(postToTwitter: bool, fetched: seq<Article>,
                         analyzer: string -> AnalyzerReply, composer: ComposePrompt -> string,
                         creds: Credentials, reply: Twitter.ApiReply, now: string)
      returns (r: Result<RunReport, RunError>)
      modifies this
      ensures var o := WeeklyRun(old(state), postToTwitter, fetched, AgentsOf(analyzer, composer), creds, reply, now);
        && state == o.state && r == o.result
        && stateFile == (if o.saved then Some(state) else old(stateFile))
      ensures documentId == old(documentId)
    {
      ghost var s0 := state;
      ghost var agents := AgentsOf(analyzer, composer);
      if state.articlesCache == [] {
        state := state.(articlesCache := fetched);
        Save();
      }
      var articles := state.articlesCache;
      var found := IndexOfNumber(articles, state.currentArticle);
      if found.None? {
        return Err(ArticleNotFound(state.currentArticle));
      }
      var article := articles[found.value];
      var analysis := AnalysisFor(state.currentArticle, article, analyzer, s0.articlesCache == []);
      ghost var saved := s0.articlesCache == [] || s0.currentArticle !in s0.analyses;
      assert state == Prepared(s0, fetched, article, agents);
      r := ComposeAndPublish(article, analysis, composer, postToTwitter, creds, reply, now, agents, saved);
    }

    /** One week of `generate_pipeline_preview` on the loop's locals: the status the week
        ends with, and the entry list and pointer it leaves. */
    method PreviewWeek(articles: seq<Article>, analyzer: string -> AnalyzerReply, composer: ComposePrompt -> string,
                       today: int, daysAhead: int, week: nat,
                       pipeline: seq<PreviewItem>, currentArticleNum: int, currentVariation: int,
                       ghost plan: PreviewPlan, ghost loop: PreviewLoop, ghost saved: bool)
      returns (status: PreviewStatus, pipeline': seq<PreviewItem>, articleNum': int, variation': int)
      requires plan == PreviewPlan(articles, AgentsOf(analyzer, composer), today, daysAhead)
      requires loop == PreviewLoop(state.analyses, Pointer(currentArticleNum, currentVariation), pipeline, loop.saved, Running)
      requires saved ==> stateFile == Some(state)
      requires loop.saved ==> saved
      modifies this
      ensures var next := PreviewStep(plan, loop, week);
        && state == old(state).(analyses := next.analyses)
        && next == PreviewLoop(state.analyses, Pointer(articleNum', variation'), pipeline', next.saved, status)
        && stateFile == (if saved || next.saved then Some(state) else old(stateFile))
      ensures documentId == old(documentId)
    {
      ghost var p := Pointer(currentArticleNum, currentVariation);
      status, pipeline', articleNum', variation' := Running, pipeline, currentArticleNum, currentVariation;
      var found := IndexOfNumber(articles, currentArticleNum);
      if found.None? {
        status := Stopped;
        assert PreviewStep(plan, loop, week) == loop.(status := Stopped);
        return;
      }
      var article := articles[found.value];
      ghost var before := state;
      var analysis := AnalysisFor(currentArticleNum, article, analyzer, saved);
      ghost var newSaved := loop.saved || currentArticleNum !in before.analyses;
      assert plan.agents.analyze == AnalyzerOf(analyzer);
      var composed := ComposeMultipleVariations(article.number, article.url, analysis.keyInsights,
                                                analysis.themes, 4, composer);
      if composed.Err? {
        status := Failed(ComposeFailed);
        assert PreviewStep(plan, loop, week) == PreviewLoop(state.analyses, p, pipeline, newSaved, status);
        return;
      }
      var tweets := composed.value;
      assert tweets == plan.agents.compose(article, analysis);
      status, pipeline', articleNum', variation' :=
        PreviewSelect(|articles|, article, tweets, today, daysAhead, week, pipeline,
                      currentArticleNum, currentVariation, plan, state.analyses, newSaved);
    }

    /** The rest of one preview week once the tweets are composed: pick the current
        variation, record its entry and advance the local pointer. */
    method PreviewSelect(count: nat, article: Article, tweets: seq<Tweet>, today: int, daysAhead: int,
                         week: nat, pipeline: seq<PreviewItem>, currentArticleNum: int, currentVariation: int,
                         ghost plan: PreviewPlan, ghost analyses: map<int, ArticleInsights>, ghost saved: bool)
      returns (status: PreviewStatus, pipeline': seq<PreviewItem>, articleNum': int, variation': int)
      requires count == |plan.articles| && plan.today == today && plan.daysAhead == daysAhead
      ensures PreviewPick(plan, Pointer(currentArticleNum, currentVariation), article, tweets, analyses, pipeline, saved, week)
        == PreviewLoop(analyses, Pointer(articleNum', variation'), pipeline', saved, status)
    {
      status, pipeline', articleNum', variation' := Running, pipeline, currentArticleNum, currentVariation;
      var index := PyIndex(currentVariation - 1, |tweets|);
      if index.None? {
        status := Failed(VariationOutOfRange(currentVariation));
        return;
      }
      var postDay := PostDay(today, daysAhead, week);
      var tweetObj := tweets[index.value];
      pipeline' := pipeline + [PreviewItem(week + 1, postDay, currentArticleNum, currentVariation, article.title,
                                           tweetObj.content, tweetObj.characterCount)];
      var advanced := Advance(Pointer(currentArticleNum, currentVariation), count);
      articleNum', variation' := advanced.article, advanced.variation;
    }

    /** The loop of `generate_pipeline_preview` over `count` weeks, on local copies of the
        pointer. */
    method PreviewWeeks(articles: seq<Article>, analyzer: string -> AnalyzerReply, composer: ComposePrompt -> string,
                        today: int, daysAhead: int, count: nat, ghost saved: bool)
      returns (r: Result<seq<PreviewItem>, RunError>)
      requires saved ==> stateFile == Some(state)
      modifies this
      ensures var loop := Preview(PreviewPlan(articles, AgentsOf(analyzer, composer), today, daysAhead),
                                  old(state).analyses, Pointer(old(state).currentArticle, old(state).currentVariation), count);
        && state == old(state).(analyses := loop.analyses)
        && r == (if loop.status.Failed? then Err(loop.status.error) else Ok(loop.items))
        && stateFile == (if saved || loop.saved then Some(state) else old(stateFile))
      ensures documentId == old(documentId)
    {
      ghost var plan := PreviewPlan(articles, AgentsOf(analyzer, composer), today, daysAhead);
      ghost var s0 := state;
      ghost var start := Pointer(s0.currentArticle, s0.currentVariation);
      ghost var savedInLoop := false;
      var pipeline: seq<PreviewItem> := [];
      var currentArticleNum := state.currentArticle;
      var currentVariation := state.currentVariation;
      for week := 0 to count
        invariant Preview(plan, s0.analyses, start, week)
          == PreviewLoop(state.analyses, Pointer(currentArticleNum, currentVariation), pipeline, savedInLoop, Running)
        invariant state == s0.(analyses := state.analyses)
        invariant stateFile == (if saved || savedInLoop then Some(state) else old(stateFile))
        invariant documentId == old(documentId)
      {
        ghost var loop := Preview(plan, s0.analyses, start, week);
        var status;
        status, pipeline, currentArticleNum, currentVariation :=
          PreviewWeek(articles, analyzer, composer, today, daysAhead, week, pipeline,
                      currentArticleNum, currentVariation, plan, loop, saved || savedInLoop);
        ghost var next := Preview(plan, s0.analyses, start, week + 1);
        assert next == PreviewStep(plan, loop, week);
        savedInLoop := next.saved;
        if !status.Running? {
          PreviewHalts(plan, s0.analyses, start, week + 1, count);
          if status.Failed? {
            return Err(status.error);
          }
          break;
        }
      }
      return Ok(pipeline);
    }

    /** `generate_pipeline_preview`: the pointer is copied into locals and advanced there;
        the state gains at most the article cache and analyses, and never a new pointer. */
    method GeneratePipelinePreview(weeks: int, fetched: seq<Article>,
                                   analyzer: string -> AnalyzerReply, composer: ComposePrompt -> string,
                                   postingDay: string, postingHour: int, postingMinute: int,
                                   today: int, weekday: int, nowTime: int)
      returns (r: Result<seq<PreviewItem>, RunError>)
      modifies this
      ensures var s1 := WithArticles(old(state), fetched);
        var plan := PreviewPlan(s1.articlesCache, AgentsOf(analyzer, composer), today,
                                DaysAhead(DayToNumber(postingDay), weekday, nowTime, PostingMinutes(postingHour, postingMinute)));
        var loop := Preview(plan, s1.analyses, Pointer(s1.currentArticle, s1.currentVariation),
                            if weeks < 0 then 0 else weeks);
        && state == s1.(analyses := loop.analyses)
        && r == (if loop.status.Failed? then Err(loop.status.error) else Ok(loop.items))
        && stateFile == (if old(state).articlesCache == [] || loop.saved then Some(state) else old(stateFile))
      ensures state.currentArticle == old(state).currentArticle
      ensures state.currentVariation == old(state).currentVariation
      ensures documentId == old(documentId)
    {
      ghost var savedCache := state.articlesCache == [];
      if state.articlesCache == [] {
        state := state.(articlesCache := fetched);
        Save();
      }
      var articles := state.articlesCache;
      var daysAhead := (DayToNumber(postingDay) - weekday) % 7;
      if daysAhead == 0 && nowTime > PostingMinutes(postingHour, postingMinute) * MicrosPerMinute {
        daysAhead := 7;
      }
      assert daysAhead == DaysAhead(DayToNumber(postingDay), weekday, nowTime, PostingMinutes(postingHour, postingMinute));
      assert state == WithArticles(old(state), fetched);
      r := PreviewWeeks(articles, analyzer, composer, today, daysAhead, if weeks < 0 then 0 else weeks, savedCache);
    }
  }
}
