/** The article and URL checks of url_validator.py. A raised `ValueError` becomes an error
    value; the checks stay in the order the source runs them. */
module UrlValidator {
  import opened Common
  import opened Strings

  /** A value read with `article.get(key)`: the key may be absent, hold None, or hold a value. */
  datatype Field<T> = Absent | Null | Given(value: T)

  /** An article dictionary as the validator reads it. */
  datatype ArticleRecord = ArticleRecord(number: Field<int>, title: Field<string>, url: Field<string>)

  /** Python truthiness of the `number` and of a string field. */
  predicate NumberTruthy(f: Field<int>) { f.Given? && f.value != 0 }
  predicate TextTruthy(f: Field<string>) { f.Given? && f.value != "" }

  // ----- validate_url_format -----

  /** The reasons `validate_url_format` rejects a URL, one message each. */
  datatype UrlProblem = EmptyUrl | NotHttps | NotLinkedInPulse | NoAuthorSuffix

  predicate AllAlnum(s: string) {
    forall i :: 0 <= i < |s| ==> IsAsciiAlnum(s[i])
  }

  /** `t` ends with "-lim-", one or more ASCII letters or digits, and "/". */
  predicate EndsWithAuthorTag(t: string) {
    exists k :: 1 <= k && k + 7 <= |t| && AuthorTagOfLength(t, k)
  }

  /** The final "-lim-" + alnum + "/" of `t` has exactly `k` alphanumeric characters. */
  predicate AuthorTagOfLength(t: string, k: int) {
    1 <= k && k + 7 <= |t| && t[|t| - 1] == '/'
    && AllAlnum(t[|t| - 1 - k..|t| - 1])
    && t[|t| - 6 - k..|t| - 1 - k] == "-lim-"
  }

  /** `re.search(r'-lim-[a-zA-Z0-9]+/$', url)`: Python's `$` matches at the very end and also
      just before one final newline. */
  predicate MatchesAuthorPattern(url: string) {
    || EndsWithAuthorTag(url)
    || (|url| >= 1 && url[|url| - 1] == '\n' && EndsWithAuthorTag(url[..|url| - 1]))
  }

  /** The first check of `validate_url_format` that `url` fails, or None when it is accepted. */
  function UrlFormatProblem(url: string): (r: Option<UrlProblem>)
    ensures r.None? <==>
      !IsBlank(url) && StartsWith(url, "https://") && Contains(url, "linkedin.com/pulse/")
      && MatchesAuthorPattern(url)
    ensures r == Some(EmptyUrl) <==> IsBlank(url)
    ensures r == Some(NotHttps) <==> !IsBlank(url) && !StartsWith(url, "https://")
    ensures r == Some(NotLinkedInPulse) <==>
      !IsBlank(url) && StartsWith(url, "https://") && !Contains(url, "linkedin.com/pulse/")
    ensures r == Some(NoAuthorSuffix) <==>
      !IsBlank(url) && StartsWith(url, "https://") && Contains(url, "linkedin.com/pulse/")
      && !MatchesAuthorPattern(url)
  {
    if IsBlank(url) then Some(EmptyUrl)
    else if !StartsWith(url, "https://") then Some(NotHttps)
    else if !Contains(url, "linkedin.com/pulse/") then Some(NotLinkedInPulse)
    else if !MatchesAuthorPattern(url) then Some(NoAuthorSuffix)
    else None
  }

  /** The message of the `ValueError`; `ref` is "Article #N" or "URL". */
  function UrlProblemMessage(ref: string, p: UrlProblem): string {
    match p
    case EmptyUrl => ref + " has empty URL"
    case NotHttps => ref + " URL must start with https://"
    case NotLinkedInPulse => ref + " URL must be a LinkedIn pulse URL"
    case NoAuthorSuffix => ref + " URL must end with LinkedIn author pattern (-lim-xxxxx/)"
  }

  // ----- validate_article_url -----

  datatype ArticleUrlError =
    | NumberOutOfRange(number: int)
    | NoUrl(number: int)
    | BadFormat(number: int, problem: UrlProblem)

  function ArticleUrlMessage(e: ArticleUrlError): string {
    match e
    case NumberOutOfRange(n) => "Invalid article number: " + IntToString(n) + ". Must be 1-5."
    case NoUrl(n) => "Article #" + IntToString(n) + " has empty or None URL"
    case BadFormat(n, p) => UrlProblemMessage(if n != 0 then "Article #" + IntToString(n) else "URL", p)
  }

  /** `validate_article_url`: the number range first, then the empty-URL exemption of article
      #5, then the format check. A missing URL (None) behaves as the empty string here. */
  function ArticleUrlCheck(number: int, url: string): (r: Result<bool, ArticleUrlError>)
    ensures !(1 <= number <= 5) ==> r == Err(NumberOutOfRange(number))
    ensures 1 <= number <= 5 && IsBlank(url) ==> (r.Ok? <==> number == 5)
    ensures 1 <= number <= 4 && IsBlank(url) ==> r == Err(NoUrl(number))
    ensures 1 <= number <= 5 && !IsBlank(url) ==>
      (r.Ok? <==> UrlFormatProblem(url).None?) &&
      (r.Err? ==> r.error == BadFormat(number, UrlFormatProblem(url).value))
    ensures r.Ok? ==> r.value
  {
    if !(1 <= number <= 5) then Err(NumberOutOfRange(number))
    else if number == 5 && IsBlank(url) then Ok(true)
    else if IsBlank(url) then Err(NoUrl(number))
    else match UrlFormatProblem(url)
      case Some(p) => Err(BadFormat(number, p))
      case None => Ok(true)
  }

  // ----- validate_url_uniqueness -----

  /** `[article.get('url') for article in articles if article.get('url')]` */
  function PresentUrls(articles: seq<ArticleRecord>): (urls: seq<string>)
    ensures forall i :: 0 <= i < |urls| ==> urls[i] != ""
    ensures forall a :: a in articles && TextTruthy(a.url) ==> a.url.value in urls
    ensures forall i :: 0 <= i < |urls| ==> exists a :: a in articles && a.url == Given(urls[i])
  {
    if articles == [] then []
    else
      var first := if TextTruthy(articles[0].url) then [articles[0].url.value] else [];
      first + PresentUrls(articles[1..])
  }

  /** `[article.get('number') for article in articles if article.get('number')]` */
  function PresentNumbers(articles: seq<ArticleRecord>): (ns: seq<int>)
    ensures forall i :: 0 <= i < |ns| ==> ns[i] != 0
    ensures forall a :: a in articles && NumberTruthy(a.number) ==> a.number.value in ns
  {
    if articles == [] then []
    else
      var first := if NumberTruthy(articles[0].number) then [articles[0].number.value] else [];
      first + PresentNumbers(articles[1..])
  }


  /** The comprehension keeps order and multiplicity: the URLs of two lists in a row are
      those of the first followed by those of the second, one per article with a URL. */
  lemma {:induction false} PresentUrlsAppend(a: seq<ArticleRecord>, b: seq<ArticleRecord>)
    ensures PresentUrls(a + b) == PresentUrls(a) + PresentUrls(b)
  {
    if a != [] {
      var first := if TextTruthy(a[0].url) then [a[0].url.value] else [];
      assert (a + b)[0] == a[0] && (a + b)[1..] == a[1..] + b;
      assert PresentUrls(a + b) == first + PresentUrls(a[1..] + b);
      assert PresentUrls(a) == first + PresentUrls(a[1..]);
      PresentUrlsAppend(a[1..], b);
      AppendAssoc(first, PresentUrls(a[1..]), PresentUrls(b));
    } else {
      assert a + b == b;
    }
  }

  /** One article gives its URL once when the URL is truthy, and nothing otherwise. */
  lemma PresentUrlsOne(a: ArticleRecord)
    ensures PresentUrls([a]) == if TextTruthy(a.url) then [a.url.value] else []
  {
    assert [a][1..] == [];
  }

  /** One article gives its number once when the number is truthy, and nothing otherwise. */
  lemma PresentNumbersOne(a: ArticleRecord)
    ensures PresentNumbers([a]) == if NumberTruthy(a.number) then [a.number.value] else []
  {
    assert [a][1..] == [];
  }

  /** Every number listed is the number of one of the articles. */
  lemma {:induction false} NumbersFromArticles(articles: seq<ArticleRecord>)
    ensures forall n :: n in PresentNumbers(articles) ==> exists a :: a in articles && a.number == Given(n)
  {
    if articles != [] {
      NumbersFromArticles(articles[1..]);
      forall n | n in PresentNumbers(articles)
        ensures exists a :: a in articles && a.number == Given(n)
      {
        if n in PresentNumbers(articles[1..]) {
          var a :| a in articles[1..] && a.number == Given(n);
          assert a in articles;
        } else {
          assert articles[0] in articles && articles[0].number == Given(n);
        }
      }
    }
  }

  /** The same for the numbers. */
  lemma {:induction false} PresentNumbersAppend(a: seq<ArticleRecord>, b: seq<ArticleRecord>)
    ensures PresentNumbers(a + b) == PresentNumbers(a) + PresentNumbers(b)
  {
    if a != [] {
      var first := if NumberTruthy(a[0].number) then [a[0].number.value] else [];
      assert (a + b)[0] == a[0] && (a + b)[1..] == a[1..] + b;
      assert PresentNumbers(a + b) == first + PresentNumbers(a[1..] + b);
      assert PresentNumbers(a) == first + PresentNumbers(a[1..]);
      PresentNumbersAppend(a[1..], b);
      AppendAssoc(first, PresentNumbers(a[1..]), PresentNumbers(b));
    } else {
      assert a + b == b;
    }
  }

  /** The URLs that occur more than once, as the `set(duplicates)` of the message. */
  function Repeated(urls: seq<string>): set<string> {
    set i, j | 0 <= i < |urls| && 0 <= j < |urls| && i != j && urls[i] == urls[j] :: urls[i]
  }

  /** `validate_url_uniqueness`: passes iff the present URLs are pairwise distinct; empty or
      missing URLs are ignored. */
  function UrlUniqueness(articles: seq<ArticleRecord>): (r: Result<bool, set<string>>)
    ensures r.Ok? <==> Distinct(PresentUrls(articles))
    ensures r.Err? ==> r.error != {} && r.error == Repeated(PresentUrls(articles))
  {
    var urls := PresentUrls(articles);
    SetSizeDistinct(urls);
    if |SetOf(urls)| != |urls| then
      var i, j :| 0 <= i < j < |urls| && urls[i] == urls[j];
      assert urls[i] in Repeated(urls);
      Err(Repeated(urls))
    else Ok(true)
  }

  // ----- validate_articles_data -----

  /** The first check an article fails in the loop body of `validate_articles_data`. */
  datatype ArticleProblem =
    | MissingNumber
    | MissingTitle
    | MissingUrl
    | Format(problem: UrlProblem)
    | ArticleUrl(error: ArticleUrlError)

  datatype ValidationError =
    | ArticleFailed(number: Field<int>, problem: ArticleProblem)
    | DuplicateUrls(urls: set<string>)
    | DuplicateNumbers(numbers: seq<int>)

  datatype ValidationFailure =
    | NoArticles
    | WrongCount(found: int)
    | Collected(errors: seq<ValidationError>)

  /** The `validation_results` dictionary returned on success. */
  datatype ValidationReport = ValidationReport(
    totalArticles: int, validArticles: int,
    errors: seq<ValidationError>, warnings: seq<string>)

  /** The loop body for one article: required fields, then `validate_url_format`, then
      `validate_article_url`; None when the article is counted as valid. */
  function ArticleProblemOf(a: ArticleRecord): (r: Option<ArticleProblem>)
  {
    if !NumberTruthy(a.number) then Some(MissingNumber)
    else if !TextTruthy(a.title) then Some(MissingTitle)
    else if !TextTruthy(a.url) then Some(MissingUrl)
    else match UrlFormatProblem(a.url.value)
      case Some(p) => Some(Format(p))
      case None =>
        match ArticleUrlCheck(a.number.value, a.url.value)
        case Err(e) => Some(ArticleUrl(e))
        case Ok(_) => None
  }

  /** An article passes exactly when it has a number in 1..5, a title and a URL of the
      required form; article #5 gets no exemption here because the missing-URL test comes
      first. */
  lemma ArticlePasses(a: ArticleRecord)
    ensures ArticleProblemOf(a).None? <==>
      && a.number.Given? && 1 <= a.number.value <= 5
      && TextTruthy(a.title)
      && a.url.Given? && UrlFormatProblem(a.url.value).None?
  {
    if a.url.Given? && UrlFormatProblem(a.url.value).None? {
      assert a.url.value != "" by {
        assert !IsBlank(a.url.value);
      }
    }
  }

  /** The per-article errors, in article order, at most one per article. */
  function ArticleErrors(articles: seq<ArticleRecord>): (es: seq<ValidationError>)
    ensures |es| <= |articles|
    ensures forall e :: e in es ==> e.ArticleFailed?
  {
    if articles == [] then []
    else
      (match ArticleProblemOf(articles[0])
       case Some(p) => [ArticleFailed(articles[0].number, p)]
       case None => [])
      + ArticleErrors(articles[1..])
  }

  function ValidCount(articles: seq<ArticleRecord>): nat {
    if articles == [] then 0
    else (if ArticleProblemOf(articles[0]).None? then 1 else 0) + ValidCount(articles[1..])
  }

  lemma {:induction false} CountsAddUp(articles: seq<ArticleRecord>)
    ensures ValidCount(articles) + |ArticleErrors(articles)| == |articles|
    ensures ArticleErrors(articles) == [] <==> forall a :: a in articles ==> ArticleProblemOf(a).None?
  {
    if articles != [] {
      CountsAddUp(articles[1..]);
      assert forall a :: a in articles ==> a == articles[0] || a in articles[1..];
    }
  }

  lemma {:induction false} ArticleErrorsSnoc(articles: seq<ArticleRecord>, a: ArticleRecord)
    ensures ArticleErrors(articles + [a]) == ArticleErrors(articles) +
      (match ArticleProblemOf(a) case Some(p) => [ArticleFailed(a.number, p)] case None => [])
    ensures ValidCount(articles + [a]) == ValidCount(articles) + (if ArticleProblemOf(a).None? then 1 else 0)
    decreases |articles|
  {
    if articles != [] {
      assert (articles + [a])[1..] == articles[1..] + [a];
      ArticleErrorsSnoc(articles[1..], a);
    } else {
      assert [a][1..] == [];
    }
  }

  /** Every error `validate_articles_data` collects once the count is right: the per-article
      errors, then the duplicate-URL error, then the duplicate-number error. */
  function AllErrors(articles: seq<ArticleRecord>): seq<ValidationError> {
    var numbers := PresentNumbers(articles);
    ArticleErrors(articles)
    + (match UrlUniqueness(articles) case Err(dups) => [DuplicateUrls(dups)] case Ok(_) => [])
    + (if |SetOf(numbers)| != |numbers| then [DuplicateNumbers(numbers)] else [])
  }

  /** A list of five passes exactly when every article passes on its own, the present URLs are
      pairwise distinct and the present numbers are pairwise distinct. */
  lemma AllErrorsEmpty(articles: seq<ArticleRecord>)
    ensures AllErrors(articles) == [] <==>
      && (forall a :: a in articles ==> ArticleProblemOf(a).None?)
      && Distinct(PresentUrls(articles))
      && Distinct(PresentNumbers(articles))
  {
    CountsAddUp(articles);
    SetSizeDistinct(PresentNumbers(articles));
  }

  /** Two articles with the same number make the list fail, whatever their other fields. */
  lemma DuplicateNumberFails(articles: seq<ArticleRecord>, i: int, j: int)
    requires 0 <= i < j < |articles|
    requires NumberTruthy(articles[i].number) && articles[i].number == articles[j].number
    ensures AllErrors(articles) != []
    ensures DuplicateNumbers(PresentNumbers(articles)) in AllErrors(articles)
  {
    NumbersSplit(articles, j);
    var ns := PresentNumbers(articles);
    var before := PresentNumbers(articles[..j]);
    var n := articles[j].number.value;
    assert n in before by {
      assert articles[i] in articles[..j];
    }
    var k :| 0 <= k < |before| && before[k] == n;
    assert ns[k] == ns[|before|];
    SetSizeDistinct(ns);
  }

  lemma {:induction false} NumbersSplit(articles: seq<ArticleRecord>, j: int)
    requires 0 <= j < |articles| && NumberTruthy(articles[j].number)
    ensures PresentNumbers(articles) ==
      PresentNumbers(articles[..j]) + [articles[j].number.value] + PresentNumbers(articles[j + 1..])
    decreases j
  {
    if j > 0 {
      var first := if NumberTruthy(articles[0].number) then [articles[0].number.value] else [];
      var pre := articles[..j];
      assert pre[0] == articles[0] && pre[1..] == articles[1..][..j - 1];
      assert articles[1..][j..] == articles[j + 1..];
      assert PresentNumbers(articles) == first + PresentNumbers(articles[1..]);
      assert PresentNumbers(pre) == first + PresentNumbers(pre[1..]);
      NumbersSplit(articles[1..], j - 1);
      AppendAssoc(first, PresentNumbers(pre[1..]), [articles[j].number.value]);
    }
  }

  /** The loop of `validate_articles_data` over the articles: one error for each article
      that fails its own checks, in order, and a count of those that pass. */
  method CheckEach(articles: seq<ArticleRecord>) returns (valid: nat, errors: seq<ValidationError>)
    ensures errors == ArticleErrors(articles)
    ensures valid == ValidCount(articles)
  {
    valid, errors := 0, [];
    for i := 0 to |articles|
      invariant errors == ArticleErrors(articles[..i])
      invariant valid == ValidCount(articles[..i])
    {
      ArticleErrorsSnoc(articles[..i], articles[i]);
      assert articles[..i + 1] == articles[..i] + [articles[i]];
      var a := articles[i];
      var problem := ArticleProblemOf(a);
      match problem {
        case None =>
          valid := valid + 1;
        case Some(p) =>
          errors := errors + [ArticleFailed(a.number, p)];
      }
    }
    assert articles[..|articles|] == articles;
  }

  /** Everything `validate_articles_data` collects: the per-article errors, then one for
      duplicate URLs and one for duplicate numbers, each only when found. */
  method CollectErrors(articles: seq<ArticleRecord>) returns (valid: nat, errors: seq<ValidationError>)
    ensures errors == AllErrors(articles)
    ensures valid == ValidCount(articles)
  {
    valid, errors := CheckEach(articles);
    match UrlUniqueness(articles) {
      case Err(dups) =>
        errors := errors + [DuplicateUrls(dups)];
      case Ok(_) =>
    }
    var numbers := PresentNumbers(articles);
    if |SetOf(numbers)| != |numbers| {
      errors := errors + [DuplicateNumbers(numbers)];
    }
  }

  /** `validate_articles_data`: fails at once on an empty list or a count other than 5; then
      checks every article, collecting at most one error each, always runs both duplicate
      checks, and fails once at the end iff anything was collected. */
  method ValidateArticlesData(articles: seq<ArticleRecord>) returns (r: Result<ValidationReport, ValidationFailure>)
    ensures |articles| == 0 ==> r == Err(NoArticles)
    ensures |articles| != 0 && |articles| != 5 ==> r == Err(WrongCount(|articles|))
    ensures |articles| == 5 ==> (r.Ok? <==> AllErrors(articles) == [])
    ensures |articles| == 5 && r.Err? ==> r.error == Collected(AllErrors(articles))
    ensures r.Ok? ==> r.value == ValidationReport(5, 5, [], [])
  {
    if |articles| == 0 {
      return Err(NoArticles);
    }
    if |articles| != 5 {
      return Err(WrongCount(|articles|));
    }
    var valid, errors := CollectErrors(articles);
    CountsAddUp(articles);
    if errors != [] {
      return Err(Collected(errors));
    }
    return Ok(ValidationReport(|articles|, valid, [], []));
  }

  // ----- generate_validation_report -----

  /** The status `generate_validation_report` shows for one article. */
  datatype ReportStatus = Valid | MissingUrlStatus | Invalid(message: string)

  /** `str()` of a field read with `article.get(key, default)`. */
  function ShowNumber(f: Field<int>): string {
    match f
    case Absent => "Unknown"
    case Null => "None"
    case Given(n) => IntToString(n)
  }

  function ShowText(f: Field<string>, default: string): string {
    match f
    case Absent => default
    case Null => "None"
    case Given(s) => s
  }

  /** The report's per-article check: a present URL goes through `validate_url_format` and
      then `validate_article_url`, with the number as `.get('number', 'Unknown')` gave it. */
  function ReportStatusOf(a: ArticleRecord): (st: ReportStatus)
  {
    if !TextTruthy(a.url) then MissingUrlStatus
    else
      var url := a.url.value;
      // "Unknown" (absent key) is truthy, None and 0 are not
      var ref := if a.number.Absent? || NumberTruthy(a.number) then "Article #" + ShowNumber(a.number) else "URL";
      match UrlFormatProblem(url)
      case Some(p) => Invalid(UrlProblemMessage(ref, p))
      case None =>
        if a.number.Given? then
          match ArticleUrlCheck(a.number.value, url)
          case Ok(_) => Valid
          case Err(e) => Invalid(ArticleUrlMessage(e))
        else Invalid("Invalid article number: " + ShowNumber(a.number) + ". Must be 1-5.")
  }

  /** The status reads VALID exactly when the URL is present, well formed and the number is
      in 1..5, and MISSING URL exactly when there is no URL. */
  lemma ReportStatusMeaning(a: ArticleRecord)
    ensures ReportStatusOf(a) == Valid <==>
      a.url.Given? && UrlFormatProblem(a.url.value).None? &&
      a.number.Given? && 1 <= a.number.value <= 5
    ensures ReportStatusOf(a) == MissingUrlStatus <==> !TextTruthy(a.url)
  {
    if a.url.Given? && UrlFormatProblem(a.url.value).None? {
      assert !IsBlank(a.url.value);
    }
  }

  function StatusLine(st: ReportStatus): string {
    match st
    case Valid => "  Status: \U{2705} VALID"
    case MissingUrlStatus => "  Status: \U{274c} MISSING URL"
    case Invalid(m) => "  Status: \U{274c} INVALID - " + m
  }

  const Rule: string := Repeat('=', 60)

  /** The four lines the report gives each article. */
  function ArticleBlock(a: ArticleRecord): seq<string> {
    [ "Article #" + ShowNumber(a.number) + ": " + ShowText(a.title, "Unknown"),
      "  URL: " + ShowText(a.url, "Missing"),
      StatusLine(ReportStatusOf(a)),
      "" ]
  }

  /** Every article's block has four lines. */
  lemma BlockLength()
    ensures forall a :: |ArticleBlock(a)| == 4
  {
  }

  /** The blocks of all articles, in order. */
  function Blocks(articles: seq<ArticleRecord>): (lines: seq<string>)
    ensures |lines| == 4 * |articles|
  {
    BlockLength();
    FlatMapLength(articles, ArticleBlock, 4);
    FlatMap(articles, ArticleBlock)
  }

  function ReportLines(articles: seq<ArticleRecord>): seq<string> {
    [Rule, "URL VALIDATION REPORT", Rule] + Blocks(articles) + [Rule]
  }

  lemma BlocksAt(articles: seq<ArticleRecord>, i: int, k: int)
    requires 0 <= i < |articles| && 0 <= k < 4
    ensures Blocks(articles)[4 * i + k] == ArticleBlock(articles[i])[k]
  {
    BlockLength();
    FlatMapAt(articles, ArticleBlock, i, k);
  }

  /** The report is framed by 60-character rules and holds, per article and in order, its
      heading, its URL, its status and a blank line. */
  lemma ReportShape(articles: seq<ArticleRecord>, i: int)
    requires 0 <= i < |articles|
    ensures var lines := ReportLines(articles);
      && |lines| == 4 * |articles| + 4
      && lines[0] == lines[2] == lines[|lines| - 1] == Rule && |Rule| == 60
      && lines[3 + 4 * i + 2] == StatusLine(ReportStatusOf(articles[i]))
      && lines[3 + 4 * i + 1] == "  URL: " + ShowText(articles[i].url, "Missing")
  {
    ReportAt(articles, i, 2);
    ReportAt(articles, i, 1);
    BlockLines(articles[i]);
  }

  /** Line `k` of article `i`'s block sits after the three heading lines and the blocks
      before it. */
  lemma ReportAt(articles: seq<ArticleRecord>, i: int, k: int)
    requires 0 <= i < |articles| && 0 <= k < 4
    ensures ReportLines(articles)[3 + 4 * i + k] == ArticleBlock(articles[i])[k]
  {
    var head, blocks := [Rule, "URL VALIDATION REPORT", Rule], Blocks(articles);
    assert ReportLines(articles) == head + blocks + [Rule];
    BlocksAt(articles, i, k);
    FramedAt(head, blocks, [Rule], 4 * i + k);
  }

  lemma BlockLines(a: ArticleRecord)
    ensures ArticleBlock(a)[1] == "  URL: " + ShowText(a.url, "Missing")
    ensures ArticleBlock(a)[2] == StatusLine(ReportStatusOf(a))
  {
  }

  /** Line `p` of the middle part of a text framed by three lines before and some after. */
  lemma FramedAt<T>(head: seq<T>, middle: seq<T>, tail: seq<T>, p: nat)
    requires |head| == 3 && p < |middle|
    ensures (head + middle + tail)[3 + p] == middle[p]
  {
  }

  lemma BlocksSnoc(articles: seq<ArticleRecord>, a: ArticleRecord)
    ensures Blocks(articles + [a]) == Blocks(articles) + ArticleBlock(a)
  {
    FlatMapSnoc(articles, a, ArticleBlock);
  }

  /** The four lines the report loop appends for one article. */
  method AppendBlock(lines: seq<string>, a: ArticleRecord) returns (lines': seq<string>)
    ensures lines' == lines + ArticleBlock(a)
  {
    var heading := "Article #" + ShowNumber(a.number) + ": " + ShowText(a.title, "Unknown");
    var urlLine := "  URL: " + ShowText(a.url, "Missing");
    var status := StatusLine(ReportStatusOf(a));
    assert ArticleBlock(a) == [heading, urlLine, status, ""];
    lines' := lines + [heading];
    lines' := lines' + [urlLine];
    lines' := lines' + [status];
    lines' := lines' + [""];
  }

  /** `generate_validation_report`: never fails; the report is the lines of `ReportLines`
      joined with newlines. */
  method GenerateValidationReport(articles: seq<ArticleRecord>) returns (report: string)
    ensures report == Join("\n", ReportLines(articles))
  {
    var lines: seq<string> := [];
    lines := lines + [Rule];
    lines := lines + ["URL VALIDATION REPORT"];
    lines := lines + [Rule];
    ghost var head := [Rule, "URL VALIDATION REPORT", Rule];
    for i := 0 to |articles|
      invariant lines == head + Blocks(articles[..i])
    {
      lines := AppendBlock(lines, articles[i]);
      BlocksSnoc(articles[..i], articles[i]);
      assert articles[..i + 1] == articles[..i] + [articles[i]];
      AppendAssoc(head, Blocks(articles[..i]), ArticleBlock(articles[i]));
    }
    assert articles[..|articles|] == articles;
    lines := lines + [Rule];
    report := Join("\n", lines);
  }

  // ----- the shapes the format check accepts and rejects -----

  const PulsePrefix: string := "https://" + "www." + "linkedin.com/pulse/"

  /** Every URL of the form https://www.linkedin.com/pulse/<slug>-lim-<tag>/ with a nonempty
      alphanumeric tag passes the format check, whatever the slug. */
  lemma AuthorUrlAccepted(slug: string, tag: string)
    requires tag != [] && AllAlnum(tag)
    ensures UrlFormatProblem(PulsePrefix + slug + "-lim-" + tag + "/").None?
  {
    var a, b := "https://" + "www.", "linkedin.com/pulse/";
    var u := PulsePrefix + slug + "-lim-" + tag + "/";
    assert u == a + b + (slug + "-lim-" + tag + "/");
    assert !IsBlank(u) by {
      assert u[0] == a[0] == 'h';
    }
    assert StartsWith(u, "https://") by {
      assert u[..8] == a[..8] == "https://";
    }
    assert OccursAt(u, b, |a|) by {
      assert u[|a|..|a| + |b|] == b;
    }
    var k := |tag|;
    assert u[|u| - 1 - k..|u| - 1] == tag;
    assert u[|u| - 6 - k..|u| - 1 - k] == "-lim-";
    assert AuthorTagOfLength(u, k);
  }

  /** A URL whose last path segment is "profile" has no author tag, so a URL that gets past
      the first three checks is rejected with the author-pattern message. */
  lemma ProfileUrlRejected(u: string)
    requires EndsWith(u, "/profile/")
    ensures UrlFormatProblem(u).Some?
    ensures !IsBlank(u) && StartsWith(u, "https://") && Contains(u, "linkedin.com/pulse/") ==>
      UrlFormatProblem(u) == Some(NoAuthorSuffix)
  {
    var tail := u[|u| - 9..];
    assert tail == "/profile/";
    forall k | 1 <= k && k + 7 <= |u|
      ensures !AuthorTagOfLength(u, k)
    {
      var run := u[|u| - 1 - k..|u| - 1];
      if k <= 7 {
        assert u[|u| - 6 - k..|u| - 1 - k][4] == u[|u| - 2 - k] == tail[7 - k];
      } else {
        assert run[k - 8] == tail[0];
      }
    }
    assert u[|u| - 1] == tail[8] != '\n';
  }
}
