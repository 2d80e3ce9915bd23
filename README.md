# Weekly tweet pipeline: a Dafny model

The tweet processor posts one tweet a week from a newsletter. Each run goes through the same steps.

- It reads the newsletter document.
- It cuts the document into `Article #N` sections.
- It asks a language model for each article's insights and themes. When the model does not answer with JSON, a line-oriented text parser reads the reply instead.
- It composes four tweet variations for the current article and posts the variation the rotation pointer selects.
- After a post that Twitter confirmed, it advances the `(article, variation)` pointer and saves the state.

A preview replays the rotation on local copies of the pointer and lists the tweets of the coming weeks with their posting days. A URL validator checks article lists against the newsletter's LinkedIn URL rules. A length rule counts every link as 23 characters against the 280-character limit.

The model has one module per source file.

- `Rotation` covers the pointer transition, its periodicity, the weekday table and the days-ahead arithmetic of `mcp_tweet_processor_workflow.py`.
- `TweetWorkflow` covers the rest of that file. A `Workflow` class holds the state dictionary and the saved state file. Its methods do what `_load_state`, `_save_state`, `_update_state_after_post`, `run_weekly_post` and `generate_pipeline_preview` do. Each method is proved against a function that describes the whole run: `WeeklyRun`, `PostStage`, `ComposeStage`, `Preview` and `PreviewStep`.
- `Twitter` covers `calculate_tweet_length` and the `TwitterClient` class. `created` is the list of texts sent to the API.
- `GoogleDriveServer` covers `DocumentParser`, `get_article_by_number` and `validate_document_structure`.
- `ContentAnalyzer` covers `analyze_article`, `_parse_text_response` and `analyze_multiple_articles`.
- `TweetComposer` covers the hashtag choice, the insight rotation, the character budget, truncation, assembly and the variation batch.
- `UrlValidator` covers `URLValidator`.
- `Common` holds `Option`, `Result` and distinctness of sequences.
- `Strings` holds the parts of Python's `str` the code relies on: `strip`, `split`, `find`, `replace`, `lower` and slicing.

The language models, the Twitter API, the clock and the document source are parameters of the model:

- the composer is a function from a prompt to text;
- the analyzer is a function from the article text to a reply, which is either parsed JSON or text;
- the API's answer to `create_tweet` is an `ApiReply` value;
- the current weekday, time and day number are integers;
- the fetched article list is an input.

Behaviour worth noting:

- The workflow never calls the URL validator. There is no check that an article's URL agrees with its cached analysis; the analysis only copies the article's URL.
- `key_insights` is cut to at most seven entries. It is not padded to exactly seven.
- `validate_articles_data` stops at the first failure of each article. A blank URL is an error even for article 5 there, because the missing-URL check comes before `validate_article_url` and its article-5 exemption. Across articles all errors are collected before the single failure.
- A failure anywhere in `run_weekly_post` ends the run with an error result. A validation failure on cached data does not degrade to a warning, because no validation runs.

## Model

| member | source | states |
|---|---|---|
| Rotation.Advance | src/workflows/mcp_tweet_processor_workflow.py:333-343 | a pointer in range (article 1..len, variation 1..4) stays in range; below variation 4 the article is kept |
| Rotation.AdvanceTimesIndex | src/workflows/mcp_tweet_processor_workflow.py:328-345 | advancing k times moves the pointer's position in the (article, variation) order by exactly k, as long as no wrap occurs |
| Rotation.FullCycle | src/workflows/mcp_tweet_processor_workflow.py:328-345 | 4·len advances bring every in-range pointer back to itself |
| Rotation.NoShorterCycle | src/workflows/mcp_tweet_processor_workflow.py:328-345 | no positive number of advances below 4·len returns to the start, so the period is exactly 4·len |
| Rotation.Reaches | src/workflows/mcp_tweet_processor_workflow.py:328-345 | every in-range pointer is reached from every other in fewer than 4·len advances |
| Rotation.DayToNumber | src/workflows/mcp_tweet_processor_workflow.py:460-466 | the result is a weekday 0..6: the index of the lower-cased name in monday..sunday, or 3 for an unknown name |
| Rotation.DayToNumberIgnoresCase | src/workflows/mcp_tweet_processor_workflow.py:460-466 | the day number does not depend on letter case |
| Rotation.DaysAhead | src/workflows/mcp_tweet_processor_workflow.py:385-388 | 0..7 days ahead, landing on the target weekday; 7 exactly when today is that weekday and the posting time has passed |
| Rotation.DaysAheadIsNext | src/workflows/mcp_tweet_processor_workflow.py:385-388 | no earlier day lands on the target weekday, except today when its posting time has passed: it is the next posting day |
| TweetWorkflow.LoadState | src/workflows/mcp_tweet_processor_workflow.py:62-74 | without a state file the state is article 1, variation 1, never posted, 0 posts, empty caches; otherwise it is the saved state |
| TweetWorkflow.PyIndex | src/workflows/mcp_tweet_processor_workflow.py:197 | Python list indexing: defined exactly for -len <= i < len, negative indices counting from the end |
| TweetWorkflow.WithArticles | src/workflows/mcp_tweet_processor_workflow.py:125-136 | articles are fetched only when the article cache is empty; a non-empty cache is kept as it is |
| TweetWorkflow.WithAnalysis | src/workflows/mcp_tweet_processor_workflow.py:153-179 | an analysis is computed only when `analysis_<N>` is absent; stored analyses are kept unchanged and at most key N is added |
| TweetWorkflow.AgentsCompose | src/workflows/mcp_tweet_processor_workflow.py:187-194 | with insights, the composer returns 4 tweets of the article, the one at index k being variation k+1 |
| TweetWorkflow.PostStage | src/workflows/mcp_tweet_processor_workflow.py:215-275 | the pointer advances one step, the post is counted and the time recorded only after a post the API confirmed with an id; a simulation or a failed post changes none of them; the report names the pointer's article and variation |
| TweetWorkflow.ComposeStage | src/workflows/mcp_tweet_processor_workflow.py:186-205 | fails to compose exactly when the analysis has no insights; a success reports `tweets[current_variation - 1]` of the composed list |
| TweetWorkflow.SelectStage | src/workflows/mcp_tweet_processor_workflow.py:196-205 | `tweets[current_variation - 1]` with Python indexing: an error exactly when that index is out of range, and then nothing changes; a success reports that tweet with the current article and variation numbers, keeps the caches and does the post-state bookkeeping |
| TweetWorkflow.Prepared | src/workflows/mcp_tweet_processor_workflow.py:125-179 | after the cache steps the current article's analysis is stored |
| TweetWorkflow.RunAdvancesOnlyOnPost | src/workflows/mcp_tweet_processor_workflow.py:216-243 | over a whole run: the pointer and post count move, by exactly one step, only after a confirmed post, which needs posting enabled, complete credentials and a tweet id, and is saved |
| TweetWorkflow.SimulationKeepsPointer | src/workflows/mcp_tweet_processor_workflow.py:244-275 | a run with posting disabled never moves the pointer and reports the current pointer as the next one |
| TweetWorkflow.RunNotFound | src/workflows/mcp_tweet_processor_workflow.py:146-148 | a run fails with "article not found" exactly when no cached article has the pointer's number |
| TweetWorkflow.RunReusesCaches | src/workflows/mcp_tweet_processor_workflow.py:126-179 | a non-empty article cache and every stored analysis survive a run unchanged; at most the current article's analysis is added |
| TweetWorkflow.RunKeepsPointerInRange | src/workflows/mcp_tweet_processor_workflow.py:328-345 | a pointer in range over the cached articles is still in range after any run |
| TweetWorkflow.ModelComposesVariations | src/workflows/mcp_tweet_processor_workflow.py:187-197 | the composer of this model returns 4 tweets of the article in variation order for any article with insights |
| TweetWorkflow.RunSelectsVariation | src/workflows/mcp_tweet_processor_workflow.py:187-205 | a successful run posts the tweet of the pointer's article and variation |
| TweetWorkflow.PreviewStep | src/workflows/mcp_tweet_processor_workflow.py:399-455 | one preview week: after a stop or failure nothing changes; a successful week appends one entry for the entry pointer and the week's date and advances the local pointer by the rotation rule; stored analyses are kept |
| TweetWorkflow.PreviewPick | src/workflows/mcp_tweet_processor_workflow.py:435-455 | tweet `current_variation - 1` with Python indexing: out of range is a failure that records no entry and keeps the pointer; otherwise exactly one entry is appended, with the week, its date, the pointer, the title and that tweet's text and length, and the pointer advances by the rotation rule |
| TweetWorkflow.Preview | src/workflows/mcp_tweet_processor_workflow.py:394-458 | at most `weeks` entries; a preview that ran through has exactly `weeks` entries and a local pointer advanced `weeks` times; entry i is week i+1, dated i weeks after the next posting day, for the pointer advanced i times from the saved one |
| TweetWorkflow.PreviewKeepsAnalyses | src/workflows/mcp_tweet_processor_workflow.py:407-423 | an analysis stored before the preview is the one it uses and keeps |
| TweetWorkflow.PreviewHalts | src/workflows/mcp_tweet_processor_workflow.py:403-405 | once the preview has stopped or failed, further weeks change nothing |
| TweetWorkflow.PreviewStopsAtMissing | src/workflows/mcp_tweet_processor_workflow.py:403-405 | a missing article in week i stops the preview with exactly the i earlier entries |
| TweetWorkflow.Workflow.constructor | src/workflows/mcp_tweet_processor_workflow.py:41-50 | the state is the one `_load_state` gives for the state file |
| TweetWorkflow.Workflow.Save | src/workflows/mcp_tweet_processor_workflow.py:76-79 | the state file receives a snapshot of the whole state; nothing else changes |
| TweetWorkflow.Workflow.UpdateStateAfterPost | src/workflows/mcp_tweet_processor_workflow.py:328-345 | only the two pointer fields change, to the `Rotation.Advance` successor, and the state is saved |
| TweetWorkflow.Workflow.Publish | src/workflows/mcp_tweet_processor_workflow.py:215-275 | the new state, result and state file are those of `PostStage` |
| TweetWorkflow.Workflow.AnalysisFor | src/workflows/mcp_tweet_processor_workflow.py:153-179 | returns the stored analysis, or computes, stores and saves a new one; only the analyses change |
| TweetWorkflow.Workflow.ComposeAndPublish | src/workflows/mcp_tweet_processor_workflow.py:182-275 | the new state, result and state file are those of `ComposeStage` |
| TweetWorkflow.Workflow.SelectAndPublish | src/workflows/mcp_tweet_processor_workflow.py:196-275 | the new state, result and state file are those of `SelectStage` for the composed list |
| TweetWorkflow.Workflow.RunWeeklyPost | src/workflows/mcp_tweet_processor_workflow.py:101-292 | the new state, result and state file are those of `WeeklyRun`, which the run lemmas above describe |
| TweetWorkflow.Workflow.PreviewWeek | src/workflows/mcp_tweet_processor_workflow.py:399-455 | one loop iteration leaves the locals and the analyses that `PreviewStep` gives |
| TweetWorkflow.Workflow.PreviewSelect | src/workflows/mcp_tweet_processor_workflow.py:435-455 | the status, entries and local pointer it returns are those of `PreviewPick` |
| TweetWorkflow.Workflow.PreviewWeeks | src/workflows/mcp_tweet_processor_workflow.py:394-458 | the loop gives the entries of `Preview`, or the error it failed with; only the analyses of the state change |
| TweetWorkflow.Workflow.GeneratePipelinePreview | src/workflows/mcp_tweet_processor_workflow.py:347-458 | the preview starts from the saved pointer and the next posting day; the saved pointer is never changed; the state gains at most the article cache and analyses |
| Twitter.FindUrls | src/mcp_servers/twitter_server.py:37-38 | every match starts with `http://` or `https://` and holds no whitespace |
| Twitter.SchemeLengthMeans | src/mcp_servers/twitter_server.py:37 | the scheme is matched exactly when the text starts with `https://` or `http://` |
| Twitter.NoSchemeNoUrls | src/mcp_servers/twitter_server.py:37-45 | text containing neither scheme has no URL matches |
| Twitter.FirstUrl | src/mcp_servers/twitter_server.py:38 | the first match is the leftmost URL and the remaining matches come from the text after it |
| Twitter.PlainTextLength | src/mcp_servers/twitter_server.py:37-45 | text without a URL scheme has effective length `len(text)` |
| Twitter.ReplaceHitsTheMatch | src/mcp_servers/twitter_server.py:41-43 | replacing the first occurrence of a match replaces that match itself, never an earlier copy in the text |
| Twitter.CleanStep | src/mcp_servers/twitter_server.py:41-43 | after each replacement no URL starts in the already-rewritten text, so k matches give k placeholders |
| Twitter.CalculateTweetLength | src/mcp_servers/twitter_server.py:23-45 | the loop's result is `len(text) - Σ len(url_i) + 23·k` over the k URL matches |
| Twitter.PostResult | src/mcp_servers/twitter_server.py:95-116 | fails without credentials, then fails when the effective length exceeds 280, otherwise succeeds exactly when the API created the tweet, reporting `len(text)` and the effective length |
| Twitter.TwitterClient.constructor | src/mcp_servers/twitter_server.py:51-65 | the client keeps the four credentials, is not authenticated and has sent nothing |
| Twitter.TwitterClient.Authenticate | src/mcp_servers/twitter_server.py:67-83 | succeeds and authenticates exactly when all four credentials are present |
| Twitter.TwitterClient.PostTweet | src/mcp_servers/twitter_server.py:85-116 | the client ends authenticated exactly when it was or has all four credentials; too long or unauthenticated text is never sent; text within 280 is sent once; the result is `PostResult` |
| GoogleDriveServer.Search | src/mcp_servers/google_drive_server.py:127 | the first position at or after `from` where a pattern matches, or none |
| GoogleDriveServer.LabelEnd | src/mcp_servers/google_drive_server.py:133-145 | a `Title:`/`URL:` label found is within the section |
| GoogleDriveServer.CollapseRun | src/mcp_servers/google_drive_server.py:157 | a whitespace run with three or more newlines becomes a run with at most two; shorter runs are unchanged |
| GoogleDriveServer.CollapseNoTripleBreak | src/mcp_servers/google_drive_server.py:157 | cleaned content never holds three newlines separated only by whitespace |
| GoogleDriveServer.CleanedContentStripped | src/mcp_servers/google_drive_server.py:154-157 | cleaned content is empty exactly for whitespace-only text and otherwise starts and ends with a non-space |
| GoogleDriveServer.ParseSection | src/mcp_servers/google_drive_server.py:124-167 | no article exactly when there is no `Article #<digits>`; an article has `has_title`, `has_url` and `word_count` consistent with its fields and no triple break |
| GoogleDriveServer.ParsedContentStripped | src/mcp_servers/google_drive_server.py:154-157 | a parsed article's content is stripped |
| GoogleDriveServer.Pieces | src/mcp_servers/google_drive_server.py:114 | the pieces concatenate back to the text |
| GoogleDriveServer.PiecesSplitPoints | src/mcp_servers/google_drive_server.py:114 | every piece after the first starts at a split point and no piece holds one inside |
| GoogleDriveServer.PiecesStartAtMatches | src/mcp_servers/google_drive_server.py:114 | every piece after the first starts where the lookahead matches |
| GoogleDriveServer.PiecesNoInnerMatch | src/mcp_servers/google_drive_server.py:114 | the lookahead matches nowhere inside a piece after its first character |
| GoogleDriveServer.SplitBefore | src/mcp_servers/google_drive_server.py:114 | the lookahead split concatenates back to the text |
| GoogleDriveServer.SplitBeforePoints | src/mcp_servers/google_drive_server.py:114 | the lookahead split cuts exactly before each split point |
| GoogleDriveServer.Sections | src/mcp_servers/google_drive_server.py:114 | the sections concatenate back to the document |
| GoogleDriveServer.SectionArticles | src/mcp_servers/google_drive_server.py:116-122 | a section gives no article exactly when it is blank or has no number label, and otherwise its parsed article |
| GoogleDriveServer.ArticlesOf | src/mcp_servers/google_drive_server.py:116-122 | at most one article per section |
| GoogleDriveServer.ArticlesConsistent | src/mcp_servers/google_drive_server.py:159-167 | every extracted article has consistent flags and word count |
| GoogleDriveServer.ArticlesOfConcat | src/mcp_servers/google_drive_server.py:116-122 | articles keep document order: the articles of joined section lists are joined |
| GoogleDriveServer.CollectArticles | src/mcp_servers/google_drive_server.py:108-122 | the loop collects exactly the articles of the sections, in order |
| GoogleDriveServer.DocumentParser.constructor | src/mcp_servers/google_drive_server.py:98-101 | keeps the text and starts with no articles |
| GoogleDriveServer.DocumentParser.ExtractArticles | src/mcp_servers/google_drive_server.py:108-122 | appends the document's articles to the list, in order |
| GoogleDriveServer.DocumentParser.Parse | src/mcp_servers/google_drive_server.py:103-106 | extracts and returns the article list |
| GoogleDriveServer.IndexOfNumber | src/mcp_servers/google_drive_server.py:236-238 | the index of the first article with the number, or none when no article has it |
| GoogleDriveServer.GetArticleByNumber | src/mcp_servers/google_drive_server.py:223-240 | the first article with the number, else an error |
| GoogleDriveServer.NoIssuesIffSequential | src/mcp_servers/google_drive_server.py:259-264 | the numbering scan finds no issue exactly when the numbers run expected, expected+1, … |
| GoogleDriveServer.IssuesAtMostOnePerArticle | src/mcp_servers/google_drive_server.py:259-264 | at most one numbering issue per article |
| GoogleDriveServer.WarningCount | src/mcp_servers/google_drive_server.py:266-278 | one warning per missing title, per missing URL and per short article; title and URL counts never exceed the article count |
| GoogleDriveServer.ScanNumbering | src/mcp_servers/google_drive_server.py:259-264 | the loop's issues are those of the numbering scan from 1 |
| GoogleDriveServer.AppendWarnings | src/mcp_servers/google_drive_server.py:268-273 | appends exactly one article's warnings |
| GoogleDriveServer.ScanContent | src/mcp_servers/google_drive_server.py:266-279 | the loop's warnings, title and URL counts and word total are those of the whole list |
| GoogleDriveServer.ValidateDocumentStructure | src/mcp_servers/google_drive_server.py:243-284 | the report holds the scans' results; the status is valid exactly when the articles are numbered 1, 2, 3, … |
| ContentAnalyzer.HeaderSection | src/agents/mcp_content_analyzer_agent.py:182-189 | header precedence insight > theme > expert/reference > framework, each stated both ways |
| ContentAnalyzer.StripBullet | src/agents/mcp_content_analyzer_agent.py:192 | removes exactly the leading characters of `-•*0123456789. ` |
| ContentAnalyzer.Classify | src/agents/mcp_content_analyzer_agent.py:178-192 | a line is blank, a header (even when bulleted) or a bullet exactly as the parser tests them, and a bullet's text is stripped |
| ContentAnalyzer.Kinds | src/agents/mcp_content_analyzer_agent.py:177-178 | one classification per line |
| ContentAnalyzer.Reading | src/agents/mcp_content_analyzer_agent.py:176-207 | the parsed insights have at most 7 entries and all four sections are present |
| ContentAnalyzer.ParseTextResponse | src/agents/mcp_content_analyzer_agent.py:167-207 | the parse of the reply's lines |
| ContentAnalyzer.ReadLines | src/agents/mcp_content_analyzer_agent.py:170-207 | the loop with its mutable current section gives exactly the section-wise reading of the lines |
| ContentAnalyzer.ReadLine | src/agents/mcp_content_analyzer_agent.py:177-199 | one iteration: a header line switches the current section, a bullet line is appended to the current section's list only, any other line changes nothing |
| ContentAnalyzer.NoHeaderNothing | src/agents/mcp_content_analyzer_agent.py:176-200 | bullets before any header are dropped |
| ContentAnalyzer.NoHeaderPrefix | src/agents/mcp_content_analyzer_agent.py:176-200 | lines before the first header do not affect the result |
| ContentAnalyzer.HeaderDecides | src/agents/mcp_content_analyzer_agent.py:176-200 | the section in force is decided by the last header |
| ContentAnalyzer.HeaderResets | src/agents/mcp_content_analyzer_agent.py:176-200 | after a header, each section's list is what came before plus what comes after, in input order |
| ContentAnalyzer.IgnoredLine | src/agents/mcp_content_analyzer_agent.py:176-200 | blank lines and lines that are neither headers nor bullets change nothing |
| ContentAnalyzer.EachLineOnce | src/agents/mcp_content_analyzer_agent.py:176-200 | every line lands in at most one section |
| ContentAnalyzer.OrEmpty | src/agents/mcp_content_analyzer_agent.py:161-164 | a missing key gives an empty list |
| ContentAnalyzer.InsightsRecord | src/agents/mcp_content_analyzer_agent.py:157-165 | number, title and URL are copied from the article; insights are the first at most 7 given; the other lists are the given ones or empty |
| ContentAnalyzer.PromptContent | src/agents/mcp_content_analyzer_agent.py:124 | the prompt holds a prefix of the content of at most 3000 characters |
| ContentAnalyzer.AnalyzeArticle | src/agents/mcp_content_analyzer_agent.py:104-165 | the record built from the language model's reply to the article's prompt |
| ContentAnalyzer.AnalyzeMultipleArticles | src/agents/mcp_content_analyzer_agent.py:209-226 | one record per article, in order |
| TweetComposer.SecondaryTag | src/agents/mcp_tweet_composer_agent.py:121-140 | the tag of the first keyword group mentioned, tier by tier: machine learning, then leadership, generative, data analytics, transformation; #DataStrategy exactly when none of those five is mentioned |
| TweetComposer.Hashtags | src/agents/mcp_tweet_composer_agent.py:116-143 | exactly two tags, `#AI` first |
| TweetComposer.SelectHashtags | src/agents/mcp_tweet_composer_agent.py:116-143 | the loop over themes gives those two tags |
| TweetComposer.HashtagString | src/agents/mcp_tweet_composer_agent.py:190 | the tags joined by a space |
| TweetComposer.AvailableRange | src/agents/mcp_tweet_composer_agent.py:194-199 | the content budget `280 - 23 - len(hashtags) - 4 - 35` is between 192 and 203 |
| TweetComposer.LastSpace | src/agents/mcp_tweet_composer_agent.py:241 | `rsplit(' ', 1)`: the last space, or none |
| TweetComposer.BeforeLastSpace | src/agents/mcp_tweet_composer_agent.py:241 | the text before the last space, or all of it when there is no space |
| TweetComposer.Truncate | src/agents/mcp_tweet_composer_agent.py:238-241 | text within the budget is unchanged; longer text is cut at a word boundary to fit, ending in `…` |
| TweetComposer.TruncateEnd | src/agents/mcp_tweet_composer_agent.py:236-241 | stripped text stays free of trailing whitespace after truncation |
| TweetComposer.UnusedMembers | src/agents/mcp_tweet_composer_agent.py:179 | the unused pool holds exactly the insights not yet used |
| TweetComposer.Pool | src/agents/mcp_tweet_composer_agent.py:179-182 | the pool falls back to all insights and is never empty |
| TweetComposer.Wrap | src/agents/mcp_tweet_composer_agent.py:185 | an index within the pool |
| TweetComposer.WrapIsRemainder | src/agents/mcp_tweet_composer_agent.py:185 | that index is Python's `(v - 1) % len(pool)` |
| TweetComposer.SelectInsight | src/agents/mcp_tweet_composer_agent.py:178-186 | the pick is one of the insights |
| TweetComposer.SelectFresh | src/agents/mcp_tweet_composer_agent.py:178-186 | the pick is unused whenever an unused insight remains |
| TweetComposer.SelectFallback | src/agents/mcp_tweet_composer_agent.py:178-186 | with every insight used, the pick is `insights[(v - 1) % len(insights)]` |
| TweetComposer.FirstSegment | src/agents/mcp_tweet_composer_agent.py:319-320 | the tweet's segment before the first blank line is its content |
| TweetComposer.TweetContent | src/agents/mcp_tweet_composer_agent.py:234-241 | the content fits the budget and keeps the 35-character margin |
| TweetComposer.ComposeTweet | src/agents/mcp_tweet_composer_agent.py:145-256 | exactly one insight, the selected one, is reported as used |
| TweetComposer.TweetLayout | src/agents/mcp_tweet_composer_agent.py:245 | the tweet is content, blank line, URL, blank line, hashtags |
| TweetComposer.FocusTheme | src/agents/mcp_tweet_composer_agent.py:286-298 | the four focus themes in order, then "general" |
| TweetComposer.HashWords | src/agents/mcp_tweet_composer_agent.py:315 | exactly the words that start with `#`: each kept word is one of them, and every one of them is kept |
| TweetComposer.HashWordsAppend | src/agents/mcp_tweet_composer_agent.py:315 | the filter keeps word order and multiplicity: the hashtags of two word lists in a row are those of the first, then those of the second |
| TweetComposer.MakeTweet | src/agents/mcp_tweet_composer_agent.py:314-332 | the record carries the article number, variation, content, used insights and focus; its hashtags are the `#` words of the text's `split()`, and its count is the part before the first blank line plus 23 for the URL, the joined hashtags and 4 |
| TweetComposer.TagIsWord | src/agents/mcp_tweet_composer_agent.py:121-140 | every secondary tag is a single whitespace-free word starting with `#` |
| TweetComposer.HashtagWords | src/agents/mcp_tweet_composer_agent.py:190 | the hashtag line splits into the two selected tags, both kept by the `#` filter, and joining them gives the line back |
| TweetComposer.AssembledWords | src/agents/mcp_tweet_composer_agent.py:245 | the words of an assembled tweet are those of its content, its URL and its hashtag line, in that order |
| TweetComposer.AssembledHashWords | src/agents/mcp_tweet_composer_agent.py:315 | without `#` words in content and URL, the tweet's hashtags are those of its hashtag line |
| TweetComposer.AssembledRecord | src/agents/mcp_tweet_composer_agent.py:314-332 | for content and URL without a blank line or a `#` word, the record's hashtags are the words of the hashtag line and its count is the effective length of content and hashtag line |
| TweetComposer.ComposedCount | src/agents/mcp_tweet_composer_agent.py:245-321 | for a composed tweet whose content and URL hold no blank line and no `#` word, the record carries exactly the two selected hashtags and its count equals the effective length `compose_tweet` computed |
| TweetComposer.UsedInsights | src/agents/mcp_tweet_composer_agent.py:283 | one used insight per variation, each one of the insights |
| TweetComposer.TweetAt | src/agents/mcp_tweet_composer_agent.py:297-334 | the tweet at position k is variation k+1 of the article with focus k |
| TweetComposer.Batch | src/agents/mcp_tweet_composer_agent.py:282-336 | exactly `num_variations` tweets |
| TweetComposer.BatchStep | src/agents/mcp_tweet_composer_agent.py:297-334 | one more variation appends the tweet composed with the insights used so far |
| TweetComposer.BatchShape | src/agents/mcp_tweet_composer_agent.py:297-334 | tweet i is variation i+1 of the article, with focus theme i and the i-th used insight |
| TweetComposer.ComposeMultipleVariations | src/agents/mcp_tweet_composer_agent.py:258-336 | fails exactly when there are no insights and some variation is asked for; otherwise the loop gives the batch |
| TweetComposer.UsedPrefix | src/agents/mcp_tweet_composer_agent.py:312 | `used_insights` only grows: the first `j` entries after any later variation are those after variation `j` |
| TweetComposer.UsedAt | src/agents/mcp_tweet_composer_agent.py:312 | entry `k` of `used_insights` is, in every later batch, the insight variation `k + 1` picked |
| TweetComposer.UsedFresh | src/agents/mcp_tweet_composer_agent.py:179-186 | while fewer variations than distinct insights came before, the next pick is none of the earlier ones |
| TweetComposer.UsedDistinct | src/agents/mcp_tweet_composer_agent.py:179-186 | with at least as many distinct insights as variations, the batch's used insights are pairwise distinct |
| TweetComposer.UsedReuses | src/agents/mcp_tweet_composer_agent.py:180-186 | once the distinct insights run out, every later variation reuses one already used by the first variations instead of failing |
| UrlValidator.UrlFormatProblem | src/utils/url_validator.py:65-96 | accepted exactly when non-blank, `https://`, `linkedin.com/pulse/` and the `-lim-<alnum>/` ending all hold; each problem kind holds exactly when its own check fails and every earlier check passed: EmptyUrl for a blank URL, NotHttps without `https://`, NotLinkedInPulse without `linkedin.com/pulse/`, NoAuthorSuffix without the ending |
| UrlValidator.AuthorUrlAccepted | src/utils/url_validator.py:84-96 | every pulse URL ending in `-lim-<alnum>/` passes |
| UrlValidator.ProfileUrlRejected | src/utils/url_validator.py:90-94 | a URL ending in `/profile/` fails, on the author suffix once the earlier checks pass |
| UrlValidator.ArticleUrlCheck | src/utils/url_validator.py:25-63 | a number outside 1..5 fails first; a blank URL passes only for article 5 and is the NoUrl error for articles 1-4; other URLs pass exactly when the format check does |
| UrlValidator.PresentUrls | src/utils/url_validator.py:111 | non-empty URLs only; the URL of every article with a truthy URL; each one some article's URL |
| UrlValidator.PresentUrlsAppend | src/utils/url_validator.py:111 | order and multiplicity: the URLs of two article lists in a row are those of the first, then those of the second |
| UrlValidator.PresentUrlsOne | src/utils/url_validator.py:111 | one article contributes its URL exactly once when it is truthy, and nothing otherwise |
| UrlValidator.PresentNumbers | src/utils/url_validator.py:180 | non-zero numbers only; the number of every article with a truthy number |
| UrlValidator.PresentNumbersOne | src/utils/url_validator.py:180 | one article contributes its number exactly once when it is truthy, and nothing otherwise |
| UrlValidator.NumbersFromArticles | src/utils/url_validator.py:180 | every listed number is some article's number |
| UrlValidator.PresentNumbersAppend | src/utils/url_validator.py:180 | order and multiplicity: the numbers of two article lists in a row are those of the first, then those of the second |
| UrlValidator.UrlUniqueness | src/utils/url_validator.py:98-117 | passes exactly when the truthy URLs are distinct, else reports the repeated ones |
| UrlValidator.ArticlePasses | src/utils/url_validator.py:146-166 | an article counts as valid exactly when its number is 1..5, its title is non-empty and its URL passes the format check |
| UrlValidator.ArticleErrors | src/utils/url_validator.py:145-171 | at most one error per article |
| UrlValidator.CountsAddUp | src/utils/url_validator.py:145-171 | valid articles plus errors equal the number of articles |
| UrlValidator.CheckEach | src/utils/url_validator.py:145-171 | the loop collects exactly the per-article errors, in article order, and counts exactly the articles that pass |
| UrlValidator.CollectErrors | src/utils/url_validator.py:145-183 | the errors collected are the per-article errors followed by one for duplicate URLs and one for duplicate numbers, each exactly when found |
| UrlValidator.AllErrorsEmpty | src/utils/url_validator.py:145-188 | no error exactly when every article passes and URLs and numbers are distinct |
| UrlValidator.DuplicateNumberFails | src/utils/url_validator.py:179-183 | two articles with the same truthy number make the list fail |
| UrlValidator.ValidateArticlesData | src/utils/url_validator.py:119-190 | empty and wrong-sized lists fail first; a list of 5 succeeds exactly when no error was collected, with the report 5 of 5 valid and no warnings |
| UrlValidator.ReportStatusMeaning | src/utils/url_validator.py:207-223 | VALID exactly when the URL and the number pass, MISSING URL exactly when there is no URL |
| UrlValidator.ReportShape | src/utils/url_validator.py:202-229 | the report is framed by 60-character rules and holds a URL and a status line per article |
| UrlValidator.AppendBlock | src/utils/url_validator.py:212-225 | appends exactly one article's block |
| UrlValidator.GenerateValidationReport | src/utils/url_validator.py:192-229 | the loop gives the report lines joined by newlines, without failing |
| Common.SetSizeDistinct | src/utils/url_validator.py:113 | a list and its set have the same size exactly when the list is distinct |
| Strings.Strip | src/mcp_servers/google_drive_server.py:117 | `strip()` is a substring of the text with only whitespace before and after it; empty exactly for whitespace, and otherwise starts and ends with a non-space |
| Strings.Words | src/mcp_servers/google_drive_server.py:164 | `split()` gives non-empty tokens without whitespace |
| Strings.WordsSplit | src/mcp_servers/google_drive_server.py:164 | the tokens are the text's maximal non-whitespace runs, left to right, each ending at whitespace or at the end |
| Strings.SplitsUnique | src/mcp_servers/google_drive_server.py:164 | any list of words that splits the text that way is `split()` itself |
| Strings.WordsAround | src/agents/mcp_tweet_composer_agent.py:315 | two texts with whitespace between them split into the words of the first followed by those of the second |
| Strings.SingleWord | src/agents/mcp_tweet_composer_agent.py:315 | a whitespace-free non-empty text splits into itself |
| Strings.TwoWords | src/agents/mcp_tweet_composer_agent.py:315 | two words joined by a space split back into those two words |
| Strings.SplitJoin | src/agents/mcp_content_analyzer_agent.py:170 | the reply's lines join back to the reply |
| Strings.SplitParts | src/agents/mcp_content_analyzer_agent.py:170 | no line holds a newline |
| Strings.Take | src/agents/mcp_content_analyzer_agent.py:161 | `[:n]` keeps the first n entries, or all when there are fewer |
| Strings.BeforeFirst | src/agents/mcp_tweet_composer_agent.py:319-320 | `split('\n\n')[0]` is a prefix; it is the whole text exactly when the separator does not occur (or text and separator are both empty), and otherwise the separator follows it and occurs nowhere earlier |

## Left out

- The state file is a snapshot value. Reading and writing JSON files, and what happens when either fails, are not modelled.
- The language models are function parameters. Prompt text is reduced to its varying parts: the content prefix for the analyzer, and for the composer the selected insight, the variation number, the focus theme and the content budget (`ComposePrompt`). The article title, which the composer prompt does not use, is not passed either.
- `json.loads` in the analyzer is modelled as a reply that is either parsed fields or text. A JSON value that is not an object, and fields of the wrong type, are not modelled.
- The network, tweepy and the Google APIs are not modelled; the answer to `create_tweet` is an input. `delete_tweet`, `get_tweet` and `verify_credentials` are not modelled, since nothing the workflow calls uses them.
- `datetime`, `ZoneInfo` and `strptime` are replaced by integers: the weekday, the day number and the time of day in microseconds. Posting dates are day numbers, and timestamps are opaque strings.
- `avg_words_per_article` is float division and is not modelled.
- Logging, prints and `log_validation_report` are not modelled.
- `MCPApp`, agent initialisation, the async structure and the MCP tool wrappers are not modelled: `read_newsletter_document`, `parse_newsletter_articles`, `compose_tweets_for_article`, `analyze_article_content` and the module-level `validate_*` functions.
- `_read_and_parse_document` and its mock document branch are not modelled; the fetched article list is an input.
- `run_tweet_processor.py`, the command-line front end, is not part of this model.
- The regular expressions are hand-written predicates. The title, URL and content searches take the first matching header. Title and URL values skip leading whitespace greedily; the content group starts right after the last newline of the whitespace run that follows its blank line, where backtracking leaves it. Python's `$` tolerance of one trailing newline is modelled in the URL suffix check.
- Exceptions inside `run_weekly_post` and `generate_pipeline_preview` are error values. The model keeps the state changes that were made before the exception.
- The run lemmas are stated over abstract agents, two functions that analyse an article and compose its tweets. `TweetWorkflow.ModelComposesVariations` ties them to this model's composer.
- TweetWorkflow.RunReport: the `url` field of `run_weekly_post`'s result (the status URL built from the tweet id, or 'simulated') is not modelled.
- UrlValidator.ValidateArticlesData: the error messages are symbolic values, not the formatted strings.
- Strings.Lower: maps ASCII `A`-`Z` only. Python's `lower()` also maps other code points, for example U+212A KELVIN SIGN to `k`, so a `FRAMEWORK` header spelled with that sign is a header in Python but not for `ContentAnalyzer.Classify` and `ContentAnalyzer.HeaderSection`; day names and `Article` labels with such letters differ the same way.
- GoogleDriveServer.ParseSection: article numbers are natural numbers, because `\d+` cannot match a sign. Digits are ASCII 0-9 only, whereas Python's `\d` and `int()` also accept other Unicode decimal digits ("Article #\u0663" is article 3 in Python and no article here).
