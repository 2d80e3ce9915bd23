/** The deterministic part of mcp_content_analyzer_agent.py: the line-oriented fallback
    parser `_parse_text_response` and the record built by `analyze_article`. The language
    model is a function parameter from the prompt's article text to its reply. */
module ContentAnalyzer {
  import opened Common
  import opened Strings
  import opened GoogleDriveServer

  /** `@dataclass ArticleInsights` */
  datatype ArticleInsights = ArticleInsights(
    articleNumber: nat, articleTitle: string, articleUrl: string,
    keyInsights: seq<string>, themes: seq<string>,
    expertReferences: seq<string>, frameworksMentioned: seq<string>)

  /** The dictionary an analysis is read from: each of the four keys may be missing. */
  datatype Analysis = Analysis(
    keyInsights: Option<seq<string>>, themes: Option<seq<string>>,
    expertReferences: Option<seq<string>>, frameworksMentioned: Option<seq<string>>)

  /** The model's reply: text that `json.loads` turns into an analysis dictionary, or text
      it rejects, which goes to the fallback parser. */
  datatype AnalyzerReply = Json(analysis: Analysis) | Text(response: string)

  // ----- classifying one line of a text reply -----

  datatype Section = Insights | Themes | Experts | Frameworks

  /** The section a header line opens, by the first keyword found in this order:
      "insight", "theme", "expert" or "reference", "framework". */
  function HeaderSection(lower: string): (r: Option<Section>)
    ensures r == Some(Insights) <==> Contains(lower, "insight")
    ensures r == Some(Themes) <==> !Contains(lower, "insight") && Contains(lower, "theme")
    ensures r == Some(Experts) <==> (!Contains(lower, "insight") && !Contains(lower, "theme")
      && (Contains(lower, "expert") || Contains(lower, "reference")))
    ensures r == None <==> (!Contains(lower, "insight") && !Contains(lower, "theme")
      && !Contains(lower, "expert") && !Contains(lower, "reference") && !Contains(lower, "framework"))
  {
    if Contains(lower, "insight") then Some(Insights)
    else if Contains(lower, "theme") then Some(Themes)
    else if Contains(lower, "expert") || Contains(lower, "reference") then Some(Experts)
    else if Contains(lower, "framework") then Some(Frameworks)
    else None
  }

  /** `line.startswith(('-', '•', '*', '1.', '2.', '3.'))` */
  predicate BulletMarked(line: string) {
    || (|line| >= 1 && (line[0] == '-' || line[0] == '•' || line[0] == '*'))
    || (|line| >= 2 && '1' <= line[0] <= '3' && line[1] == '.')
  }

  /** The characters of `'-•*0123456789. '` */
  predicate BulletChar(c: char) {
    c == '-' || c == '•' || c == '*' || IsDigit(c) || c == '.' || c == ' '
  }

  /** `line.lstrip('-•*0123456789. ')` */
  function StripBullet(line: string): (r: string)
    ensures |r| <= |line| && r == line[|line| - |r|..]
    ensures forall i :: 0 <= i < |line| - |r| ==> BulletChar(line[i])
    ensures r == [] || !BulletChar(r[0])
  {
    if line == [] || !BulletChar(line[0]) then line else StripBullet(line[1..])
  }

  datatype LineKind = Blank | Header(section: Section) | Bullet(text: string) | Other

  /** What the loop of `_parse_text_response` makes of one raw line: blank after stripping,
      a header (checked first, so a bullet naming a keyword is a header), a bullet with its
      marker characters removed, or anything else. */
  function Classify(raw: string): (k: LineKind)
    ensures k == Blank <==> IsBlank(raw)
    ensures k.Header? <==> !IsBlank(raw) && HeaderSection(Lower(Strip(raw))).Some?
    ensures k.Header? ==> Some(k.section) == HeaderSection(Lower(Strip(raw)))
    ensures k.Bullet? <==> (!IsBlank(raw) && HeaderSection(Lower(Strip(raw))).None?
      && BulletMarked(Strip(raw)))
    ensures k.Bullet? ==> k.text == StripBullet(Strip(raw))
  {
    var line := Strip(raw);
    if line == [] then Blank
    else match HeaderSection(Lower(line))
      case Some(s) => Header(s)
      case None => if BulletMarked(line) then Bullet(StripBullet(line)) else Other
  }

  // ----- the reading of a whole reply -----

  /** The kind of every line, in order. */
  function Kinds(lines: seq<string>): (ks: seq<LineKind>)
    ensures |ks| == |lines| && forall i :: 0 <= i < |lines| ==> ks[i] == Classify(lines[i])
  {
    seq(|lines|, i requires 0 <= i < |lines| => Classify(lines[i]))
  }

  /** The section in force after the lines of kinds `ks`: the one the last header opened,
      None before the first header. */
  function InForce(ks: seq<LineKind>): Option<Section> {
    if ks == [] then None
    else if ks[|ks| - 1].Header? then Some(ks[|ks| - 1].section)
    else InForce(ks[..|ks| - 1])
  }

  /** The bullet text a line adds to section `sec` when `current` is in force. */
  function Added(kind: LineKind, current: Option<Section>, sec: Section): seq<string> {
    if kind.Bullet? && current == Some(sec) then [kind.text] else []
  }

  /** The bullet texts that fall under section `sec`, in input order. */
  function Collected(ks: seq<LineKind>, sec: Section): (r: seq<string>)
    ensures |r| <= |ks|
  {
    if ks == [] then []
    else
      var front := ks[..|ks| - 1];
      Collected(front, sec) + Added(ks[|ks| - 1], InForce(front), sec)
  }

  /** The dictionary the reading of lines of kinds `ks` gives; only the insights are cut to
      seven. */
  function Reading(ks: seq<LineKind>): (a: Analysis)
    ensures a.keyInsights.Some? && |a.keyInsights.value| <= 7
    ensures a.themes.Some? && a.expertReferences.Some? && a.frameworksMentioned.Some?
  {
    Analysis(Some(Take(Collected(ks, Insights), 7)), Some(Collected(ks, Themes)),
      Some(Collected(ks, Experts)), Some(Collected(ks, Frameworks)))
  }

  /** The dictionary `_parse_text_response` returns for `response`. */
  function TextAnalysis(response: string): Analysis {
    Reading(Kinds(Split(response, '\n')))
  }

  /** One more line: a header changes the section in force, a bullet goes to that section. */
  lemma LineStep(ks: seq<LineKind>, i: nat)
    requires i < |ks|
    ensures InForce(ks[..i + 1]) == if ks[i].Header? then Some(ks[i].section) else InForce(ks[..i])
    ensures forall sec :: Collected(ks[..i + 1], sec) == Collected(ks[..i], sec) + Added(ks[i], InForce(ks[..i]), sec)
  {
    assert ks[..i + 1][..i] == ks[..i];
  }

  /** `_parse_text_response`: the reply cut into lines, then read line by line. */
  method ParseTextResponse(response: string) returns (analysis: Analysis)
    ensures analysis == TextAnalysis(response)
  {
    var lines := Split(response, '\n');
    analysis := ReadLines(lines);
  }

  /** The loop of `_parse_text_response`: one pass over the lines with the current section
      in a variable and one list per section. */
  method ReadLines(lines: seq<string>) returns (analysis: Analysis)
    ensures analysis == Reading(Kinds(lines))
  {
    ghost var ks := Kinds(lines);
    var insights: seq<string> := [];
    var themes: seq<string> := [];
    var experts: seq<string> := [];
    var frameworks: seq<string> := [];
    var current: Option<Section> := None;
    for i := 0 to |lines|
      invariant current == InForce(ks[..i])
      invariant insights == Collected(ks[..i], Insights)
      invariant themes == Collected(ks[..i], Themes)
      invariant experts == Collected(ks[..i], Experts)
      invariant frameworks == Collected(ks[..i], Frameworks)
    {
      LineStep(ks, i);
      current, insights, themes, experts, frameworks :=
        ReadLine(lines[i], current, insights, themes, experts, frameworks);
    }
    assert ks[..|ks|] == ks;
    analysis := Analysis(Some(Take(insights, 7)), Some(themes), Some(experts), Some(frameworks));
  }

  /** One iteration of that loop: a header line sets the current section, a bullet line
      goes to the list of the current section, and nothing else changes anything. */
  method ReadLine(raw: string, current: Option<Section>, insights: seq<string>, themes: seq<string>,
                  experts: seq<string>, frameworks: seq<string>)
    returns (current': Option<Section>, insights': seq<string>, themes': seq<string>,
             experts': seq<string>, frameworks': seq<string>)
    ensures var kind := Classify(raw);
      && current' == (if kind.Header? then Some(kind.section) else current)
      && insights' == insights + Added(kind, current, Insights)
      && themes' == themes + Added(kind, current, Themes)
      && experts' == experts + Added(kind, current, Experts)
      && frameworks' == frameworks + Added(kind, current, Frameworks)
  {
    current', insights', themes', experts', frameworks' := current, insights, themes, experts, frameworks;
    match Classify(raw) {
      case Header(sec) =>
        current' := Some(sec);
      case Bullet(text) =>
        match current {
          case Some(Insights) => insights' := insights + [text];
          case Some(Themes) => themes' := themes + [text];
          case Some(Experts) => experts' := experts + [text];
          case Some(Frameworks) => frameworks' := frameworks + [text];
          case None =>
        }
      case _ =>
    }
  }

  // ----- properties of the reading -----

  /** Bullets before the first header belong to no section: lines without a header leave
      nothing in force and collect nothing. */
  lemma {:induction false} NoHeaderNothing(ks: seq<LineKind>, sec: Section)
    requires forall k :: 0 <= k < |ks| ==> !ks[k].Header?
    ensures InForce(ks) == None && Collected(ks, sec) == []
    decreases |ks|
  {
    if ks != [] {
      NoHeaderNothing(ks[..|ks| - 1], sec);
    }
  }

  /** Lines without a header in front of a reply change nothing about how the rest is read. */
  lemma {:induction false} NoHeaderPrefix(a: seq<LineKind>, b: seq<LineKind>, sec: Section)
    requires forall k :: 0 <= k < |a| ==> !a[k].Header?
    ensures InForce(a + b) == InForce(b) && Collected(a + b, sec) == Collected(b, sec)
    decreases |b|
  {
    if b == [] {
      assert a + b == a;
      NoHeaderNothing(a, sec);
    } else {
      var b0 := b[..|b| - 1];
      assert (a + b)[..|a + b| - 1] == a + b0;
      assert (a + b)[|a + b| - 1] == b[|b| - 1];
      NoHeaderPrefix(a, b0, sec);
    }
  }

  /** After a header line, the section in force no longer depends on what came before. */
  lemma {:induction false} HeaderDecides(a: seq<LineKind>, b: seq<LineKind>)
    requires b != [] && b[0].Header?
    ensures InForce(a + b) == InForce(b)
    decreases |b|
  {
    var b0 := b[..|b| - 1];
    assert (a + b)[..|a + b| - 1] == a + b0;
    assert (a + b)[|a + b| - 1] == b[|b| - 1];
    if |b| > 1 {
      assert b0[0] == b[0];
      HeaderDecides(a, b0);
    }
  }

  /** A header line starts the reading afresh: what comes before it keeps what it collected,
      and what follows is read as if the reply began at the header. */
  lemma {:induction false} HeaderResets(a: seq<LineKind>, b: seq<LineKind>, sec: Section)
    requires b != [] && b[0].Header?
    ensures Collected(a + b, sec) == Collected(a, sec) + Collected(b, sec)
    decreases |b|
  {
    var b0, last := b[..|b| - 1], b[|b| - 1];
    var ab := a + b;
    assert ab[..|ab| - 1] == a + b0;
    assert ab[|ab| - 1] == last;
    if |b| == 1 {
      assert a + b0 == a && b0 == [];
      calc {
        Collected(ab, sec);
        Collected(a, sec) + Added(last, InForce(a), sec);
        Collected(a, sec) + [];
        Collected(a, sec) + (Collected(b0, sec) + Added(last, InForce(b0), sec));
        Collected(a, sec) + Collected(b, sec);
      }
    } else {
      assert b0[0] == b[0];
      calc {
        Collected(ab, sec);
        Collected(a + b0, sec) + Added(last, InForce(a + b0), sec);
        { HeaderResets(a, b0, sec); HeaderDecides(a, b0); }
        (Collected(a, sec) + Collected(b0, sec)) + Added(last, InForce(b0), sec);
        { AppendAssoc(Collected(a, sec), Collected(b0, sec), Added(last, InForce(b0), sec)); }
        Collected(a, sec) + (Collected(b0, sec) + Added(last, InForce(b0), sec));
        Collected(a, sec) + Collected(b, sec);
      }
    }
  }

  /** A line that is blank, or neither a header nor a bullet, is ignored. */
  lemma IgnoredLine(a: seq<LineKind>, kind: LineKind, sec: Section)
    requires kind == Blank || kind == Other
    ensures InForce(a + [kind]) == InForce(a) && Collected(a + [kind], sec) == Collected(a, sec)
  {
    assert (a + [kind])[..|a|] == a;
  }

  /** Every bullet goes to at most one section: the four lists together are no longer than
      the reply has lines. */
  lemma {:induction false} EachLineOnce(ks: seq<LineKind>)
    ensures |Collected(ks, Insights)| + |Collected(ks, Themes)|
      + |Collected(ks, Experts)| + |Collected(ks, Frameworks)| <= |ks|
    decreases |ks|
  {
    if ks != [] {
      EachLineOnce(ks[..|ks| - 1]);
    }
  }

  // ----- analyze_article -----

  /** `analysis.get(key, [])` */
  function OrEmpty(o: Option<seq<string>>): (r: seq<string>)
    ensures o.None? ==> r == []
    ensures o.Some? ==> r == o.value
  {
    match o
    case Some(v) => v
    case None => []
  }

  /** The record `analyze_article` returns: number, title and URL copied from the article,
      at most the first seven insights, and the other lists as given, empty when missing. */
  function InsightsRecord(article: Article, analysis: Analysis): (r: ArticleInsights)
    ensures r.articleNumber == article.number && r.articleTitle == article.title
    ensures r.articleUrl == article.url
    ensures var given := OrEmpty(analysis.keyInsights);
      |r.keyInsights| <= 7 && |r.keyInsights| <= |given| && r.keyInsights == given[..|r.keyInsights|]
      && (|r.keyInsights| == 7 || r.keyInsights == given)
    ensures r.themes == OrEmpty(analysis.themes)
    ensures r.expertReferences == OrEmpty(analysis.expertReferences)
    ensures r.frameworksMentioned == OrEmpty(analysis.frameworksMentioned)
  {
    ArticleInsights(article.number, article.title, article.url,
      Take(OrEmpty(analysis.keyInsights), 7), OrEmpty(analysis.themes),
      OrEmpty(analysis.expertReferences), OrEmpty(analysis.frameworksMentioned))
  }

  /** The dictionary a reply yields: the decoded JSON, or the fallback parser's reading. */
  function ReplyAnalysis(reply: AnalyzerReply): Analysis {
    match reply
    case Json(a) => a
    case Text(t) => TextAnalysis(t)
  }

  /** The prompt's only varying part: `article['content'][:3000]`. */
  function PromptContent(article: Article): (c: string)
    ensures |c| <= 3000 && StartsWith(article.content, c)
  {
    Take(article.content, 3000)
  }

  /** `analyze_article` with `llm` as the model. */
  method AnalyzeArticle(article: Article, llm: string -> AnalyzerReply) returns (r: ArticleInsights)
    ensures r == InsightsRecord(article, ReplyAnalysis(llm(PromptContent(article))))
  {
    var response := llm(PromptContent(article));
    var analysis: Analysis;
    match response {
      case Json(a) =>
        analysis := a;
      case Text(t) =>
        analysis := ParseTextResponse(t);
    }
    r := InsightsRecord(article, analysis);
  }

  /** `analyze_multiple_articles`: one record per article, in order. */
  method AnalyzeMultipleArticles(articles: seq<Article>, llm: string -> AnalyzerReply)
    returns (rs: seq<ArticleInsights>)
    ensures |rs| == |articles|
    ensures forall i :: 0 <= i < |rs| ==>
      rs[i] == InsightsRecord(articles[i], ReplyAnalysis(llm(PromptContent(articles[i]))))
  {
    rs := [];
    for i := 0 to |articles|
      invariant |rs| == i
      invariant forall j :: 0 <= j < i ==>
        rs[j] == InsightsRecord(articles[j], ReplyAnalysis(llm(PromptContent(articles[j]))))
    {
      var insights := AnalyzeArticle(articles[i], llm);
      rs := rs + [insights];
    }
  }
}
