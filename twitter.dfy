/** The length rule and the posting guard of twitter_server.py. */
module Twitter {
  import opened Common
  import opened Strings

  // ----- re.findall(r'https?://[^\s]+', text) -----

  /** 8 when `s` starts with "https://", 7 when it starts with "http://", 0 otherwise. */
  function SchemeLength(s: string): (k: nat)
    ensures k <= 8 && k <= |s|
    ensures k > 0 ==> s[0] == 'h' && forall i :: 0 <= i < k ==> !IsSpace(s[i]) && s[i] != 'x'
  {
    if |s| >= 8 && s[0] == 'h' && s[1] == 't' && s[2] == 't' && s[3] == 'p' && s[4] == 's'
       && s[5] == ':' && s[6] == '/' && s[7] == '/' then 8
    else if |s| >= 7 && s[0] == 'h' && s[1] == 't' && s[2] == 't' && s[3] == 'p'
       && s[4] == ':' && s[5] == '/' && s[6] == '/' then 7
    else 0
  }

  /** A match of `https?://[^\s]+` begins at the start of `s`: "https://" or "http://"
      followed by at least one character that is not whitespace. */
  predicate UrlAtStart(s: string) {
    var k := SchemeLength(s);
    0 < k < |s| && !IsSpace(s[k])
  }

  /** The scheme test reads only the first eight characters. */
  lemma SchemeLengthPrefix(s: string, t: string)
    requires |s| >= 8 && |t| >= 8 && s[..8] == t[..8]
    ensures SchemeLength(s) == SchemeLength(t)
  {
    assert forall i :: 0 <= i < 8 ==> s[i] == s[..8][i] == t[..8][i] == t[i];
  }

  /** The characters of the scheme are never whitespace, so the non-whitespace run at a match
      start covers the scheme and at least one more character, and itself starts a match. */
  lemma UrlRun(s: string)
    requires UrlAtStart(s)
    ensures NonSpaceRun(s) > SchemeLength(s) && UrlAtStart(s[..NonSpaceRun(s)])
  {
    var n, k := NonSpaceRun(s), SchemeLength(s);
    assert n > k;
    var u := s[..n];
    assert forall i :: 0 <= i <= k ==> u[i] == s[i];
  }

  /** The non-overlapping matches of the URL pattern, left to right: at each match start the
      match is the longest run without whitespace, and the scan resumes after it. */
  function FindUrls(s: string): (urls: seq<string>)
    ensures forall k :: 0 <= k < |urls| ==> UrlAtStart(urls[k]) && NoSpace(urls[k])
    decreases |s|
  {
    if s == [] then []
    else if UrlAtStart(s) then
      var n := NonSpaceRun(s);
      UrlRun(s);
      [s[..n]] + FindUrls(s[n..])
    else FindUrls(s[1..])
  }

  /** The scheme test agrees with the substring test of the source's text. */
  lemma SchemeLengthMeans(s: string)
    ensures SchemeLength(s) == 8 <==> StartsWith(s, "https://")
    ensures SchemeLength(s) == 7 <==> StartsWith(s, "http://")
  {
    if StartsWith(s, "https://") {
      assert forall i :: 0 <= i < 8 ==> s[i] == s[..8][i];
    }
    if StartsWith(s, "http://") {
      assert forall i :: 0 <= i < 7 ==> s[i] == s[..7][i];
    }
  }

  lemma SchemeAtStart(s: string)
    ensures UrlAtStart(s) ==> OccursAt(s, "https://", 0) || OccursAt(s, "http://", 0)
  {
    SchemeLengthMeans(s);
  }

  /** Text with no "http://" or "https://" in it has no URL matches. */
  lemma {:induction false} NoSchemeNoUrls(s: string)
    requires !Contains(s, "http://") && !Contains(s, "https://")
    ensures FindUrls(s) == []
    decreases |s|
  {
    if s != [] {
      SchemeAtStart(s);
      var t := s[1..];
      assert !Contains(t, "http://") && !Contains(t, "https://") by {
        forall i, w | 0 <= i <= |t| && w in {"http://", "https://"} && OccursAt(t, w, i)
          ensures OccursAt(s, w, i + 1)
        {
          assert t[i..i + |w|] == s[i + 1..i + 1 + |w|];
        }
      }
      NoSchemeNoUrls(t);
    }
  }

  /** The first match splits the text into the gap before it, the match and the rest; no
      match starts anywhere in the gap. */
  lemma {:induction false} FirstUrl(s: string) returns (g: string, rest: string)
    requires FindUrls(s) != []
    ensures s == g + FindUrls(s)[0] + rest
    ensures FindUrls(rest) == FindUrls(s)[1..]
    ensures forall p :: 0 <= p < |g| ==> !UrlAtStart(s[p..])
    decreases |s|
  {
    if UrlAtStart(s) {
      var n := NonSpaceRun(s);
      g, rest := [], s[n..];
      assert s == s[..n] + s[n..];
    } else {
      var g', r' := FirstUrl(s[1..]);
      g, rest := [s[0]] + g', r';
      var m := FindUrls(s)[0];
      assert FindUrls(s) == FindUrls(s[1..]);
      calc {
        s;
        [s[0]] + s[1..];
        [s[0]] + ((g' + m) + r');
        { AppendAssoc([s[0]], g' + m, r'); }
        ([s[0]] + (g' + m)) + r';
        { AppendAssoc([s[0]], g', m); }
        (g + m) + rest;
      }
      forall p | 0 <= p < |g|
        ensures !UrlAtStart(s[p..])
      {
        if p > 0 {
          assert s[p..] == s[1..][p - 1..];
        }
      }
    }
  }

  /** The sum of the lengths of `urls`. */
  function SumLen(urls: seq<string>): nat {
    if urls == [] then 0 else SumLen(urls[..|urls| - 1]) + |urls[|urls| - 1]|
  }

  /** The t.co placeholder every URL is replaced by. */
  const Placeholder: string := Repeat('x', 23)

  /** The effective length the source promises: the text's length with every URL match
      counted as 23 characters. */
  function TweetLength(text: string): int {
    var urls := FindUrls(text);
    |text| - SumLen(urls) + 23 * |urls|
  }

  /** Text without any http:// or https:// has effective length equal to its length. */
  lemma PlainTextLength(text: string)
    requires !Contains(text, "http://") && !Contains(text, "https://")
    ensures TweetLength(text) == |text|
  {
    NoSchemeNoUrls(text);
  }

  // ----- why `replace(url, 'x' * 23, 1)` always hits the match itself -----

  /** Whether a match starts at the front of `s` depends on its first nine characters. */
  lemma UrlAtStartPrefix(s: string, t: string)
    requires |s| >= 9 && |t| >= 9 && s[..9] == t[..9]
    ensures UrlAtStart(s) == UrlAtStart(t)
  {
    assert s[..8] == s[..9][..8] == t[..9][..8] == t[..8];
    SchemeLengthPrefix(s, t);
    assert forall i :: 0 <= i < 9 ==> s[i] == s[..9][i] == t[..9][i] == t[i];
  }

  lemma UrlAtStartExtend(u: string, w: string)
    requires UrlAtStart(u)
    ensures UrlAtStart(u + w)
  {
    var k := SchemeLength(u);
    assert forall i :: 0 <= i <= k ==> (u + w)[i] == u[i];
    if |u| >= 8 {
      assert (u + w)[..8] == u[..8];
      SchemeLengthPrefix(u, u + w);
    }
  }

  /** `done` is the rewritten part of the text: no match starts inside it, and it is empty or
      ends with a placeholder. */
  predicate Clean(done: string) {
    && (done == [] || EndsWith(done, Placeholder))
    && forall p :: 0 <= p < |done| ==> !UrlAtStart(done[p..])
  }

  /** Whatever follows a clean prefix, no match starts inside it: the scheme cannot reach into
      the trailing placeholder, whose characters are all 'x'. */
  lemma CleanExtends(done: string, r: string, p: int)
    requires Clean(done) && 0 <= p < |done|
    ensures !UrlAtStart((done + r)[p..])
  {
    var s := (done + r)[p..];
    if p >= |done| - 23 {
      assert done[|done| - 23..] == Placeholder;
      assert s[0] == done[p] == Placeholder[p - (|done| - 23)] == 'x';
    } else {
      assert s[..9] == done[p..][..9];
      UrlAtStartPrefix(s, done[p..]);
    }
  }

  /** A match that starts in `a` and would run into the placeholder would also start in
      front of any other non-whitespace character. */
  lemma PlaceholderSwap(a: string, c: string)
    requires c != [] && !IsSpace(c[0])
    requires UrlAtStart(a + Placeholder)
    ensures UrlAtStart(a + c)
  {
    var s, t := a + Placeholder, a + c;
    var k := SchemeLength(s);
    assert k <= |a|;
    assert forall i :: 0 <= i < |a| ==> s[i] == t[i] == a[i];
    assert t[k] == s[k] || (k == |a| && t[k] == c[0]);
    if k == 8 {
      assert SchemeLength(t) == 8;
    } else {
      assert k == 7;
      assert SchemeLength(t) == 7;
    }
  }

  /** No match starts before the position of `u`. */
  lemma NoStartBefore(done: string, g: string, u: string, r: string, p: int)
    requires Clean(done)
    requires forall q :: 0 <= q < |g| ==> !UrlAtStart((g + u + r)[q..])
    requires 0 <= p < |done| + |g|
    ensures !UrlAtStart((done + g + u + r)[p..])
  {
    var s := done + g + u + r;
    if p < |done| {
      assert s == done + (g + u + r);
      CleanExtends(done, g + u + r, p);
    } else {
      assert s[p..] == (g + u + r)[p - |done|..];
    }
  }

  /** No occurrence of the match `u` starts before its own position. */
  lemma NoEarlierOccurrence(done: string, g: string, u: string, r: string, p: int)
    requires Clean(done) && UrlAtStart(u)
    requires forall q :: 0 <= q < |g| ==> !UrlAtStart((g + u + r)[q..])
    requires 0 <= p < |done| + |g|
    ensures !OccursAt(done + g + u + r, u, p)
  {
    var s := done + g + u + r;
    if OccursAt(s, u, p) {
      assert s[p..] == u + s[p + |u|..];
      UrlAtStartExtend(u, s[p + |u|..]);
      NoStartBefore(done, g, u, r, p);
    }
  }

  /** The first occurrence of the match `u` in the partly rewritten text is the match itself. */
  lemma FindsTheMatch(done: string, g: string, u: string, r: string)
    requires Clean(done) && UrlAtStart(u)
    requires forall p :: 0 <= p < |g| ==> !UrlAtStart((g + u + r)[p..])
    ensures Find(done + g + u + r, u, 0) == Some(|done| + |g|)
  {
    var s := done + g + u + r;
    var at := |done| + |g|;
    assert OccursAt(s, u, at) by {
      assert s == (done + g) + u + r;
      assert s[at..at + |u|] == u;
    }
    var f := Find(s, u, 0);
    if f.None? || f.value != at {
      if f.Some? && f.value < at {
        NoEarlierOccurrence(done, g, u, r, f.value);
      }
    }
  }

  /** The source's `replace(url, 'x' * 23, 1)` rewrites the match itself. */
  lemma ReplaceHitsTheMatch(done: string, g: string, u: string, r: string)
    requires Clean(done) && UrlAtStart(u)
    requires forall p :: 0 <= p < |g| ==> !UrlAtStart((g + u + r)[p..])
    ensures ReplaceFirst(done + (g + u + r), u, Placeholder) == (done + g + Placeholder) + r
  {
    assert done + (g + u + r) == done + g + u + r;
    FindsTheMatch(done, g, u, r);
    var s := done + g + u + r;
    var at := |done| + |g|;
    assert s[..at] == done + g;
    assert s[at + |u|..] == r;
  }

  /** Replacing the match keeps the rewritten prefix clean. */
  lemma CleanStep(done: string, g: string, u: string, r: string)
    requires Clean(done) && UrlAtStart(u)
    requires forall p :: 0 <= p < |g| ==> !UrlAtStart((g + u + r)[p..])
    ensures Clean(done + g + Placeholder)
  {
    var d := done + g + Placeholder;
    assert d[|d| - 23..] == Placeholder;
    forall p | 0 <= p < |d|
      ensures !UrlAtStart(d[p..])
    {
      if p < |done| {
        assert d == done + (g + Placeholder);
        CleanExtends(done, g + Placeholder, p);
      } else if p < |done| + |g| {
        var a := g[p - |done|..];
        assert d[p..] == a + Placeholder;
        assert (g + u + r)[p - |done|..] == a + (u + r);
        if UrlAtStart(a + Placeholder) {
          PlaceholderSwap(a, u + r);
        }
      } else {
        assert d[p] == Placeholder[p - |done| - |g|] == 'x';
      }
    }
  }

  lemma SumLenSnoc(urls: seq<string>, i: int)
    requires 0 <= i < |urls|
    ensures SumLen(urls[..i + 1]) == SumLen(urls[..i]) + |urls[i]|
  {
    assert urls[..i + 1][..i] == urls[..i];
  }

  /** `calculate_tweet_length`: each URL match is replaced, in order, by its first occurrence
      in the text rewritten so far; the result is the effective length. */
  method CalculateTweetLength(text: string) returns (n: int)
    ensures n == TweetLength(text)
  {
    var urls := FindUrls(text);
    var adjusted := text;
    ghost var done: string := [];
    ghost var rest := text;
    for i := 0 to |urls|
      invariant adjusted == done + rest
      invariant FindUrls(rest) == urls[i..]
      invariant Clean(done)
      invariant |adjusted| == |text| - SumLen(urls[..i]) + 23 * i
    {
      var url := urls[i];
      ghost var g, r := FirstUrl(rest);
      assert rest == g + url + r;
      ReplaceHitsTheMatch(done, g, url, r);
      CleanStep(done, g, url, r);
      SumLenSnoc(urls, i);
      adjusted := ReplaceFirst(adjusted, url, Repeat('x', 23));
      done, rest := done + g + Placeholder, r;
    }
    assert urls[..|urls|] == urls;
    n := |adjusted|;
  }

  // ----- TwitterClient -----

  datatype PostError =
    | MissingCredentials
    /** effective length and `len(text)` */
    | TooLong(effective: int, length: int)
    | ApiError(message: string)

  /** What `create_tweet` answers: the new tweet's id, or an exception from the library. */
  datatype ApiReply = Created(id: string) | Failed(message: string)

  /** The dictionary `post_tweet` returns. */
  datatype PostRecord = PostRecord(
    tweetId: string, text: string, postedAt: string,
    characterCount: int, effectiveCharacterCount: int, status: string)

  /** The answer of `post_tweet` from a client that is authenticated or holds all four
      credentials (`ready`): the missing-credentials error, the length refusal, or the API's
      answer turned into the result record. */
  function PostResult(ready: bool, text: string, reply: ApiReply, now: string): (r: Result<PostRecord, PostError>)
    ensures !ready ==> r == Err(MissingCredentials)
    ensures ready && TweetLength(text) > 280 ==> r == Err(TooLong(TweetLength(text), |text|))
    ensures r.Ok? <==> ready && TweetLength(text) <= 280 && reply.Created?
    ensures r.Ok? ==> r.value == PostRecord(reply.id, text, now, |text|, TweetLength(text), "posted")
  {
    if !ready then Err(MissingCredentials)
    else if TweetLength(text) > 280 then Err(TooLong(TweetLength(text), |text|))
    else match reply
      case Created(id) => Ok(PostRecord(id, text, now, |text|, TweetLength(text), "posted"))
      case Failed(m) => Err(ApiError(m))
  }

  class TwitterClient {
    /** The four credentials after the fallback to the environment; "" when neither gave one. */
    var apiKey: string
    var apiSecret: string
    var accessToken: string
    var accessTokenSecret: string
    /** Whether `self.client` has been set. */
    var authenticated: bool
    /** The texts handed to `create_tweet`, in order. */
    var created: seq<string>

    predicate HasCredentials()
      reads this
    {
      apiKey != "" && apiSecret != "" && accessToken != "" && accessTokenSecret != ""
    }

    constructor(apiKey: string, apiSecret: string, accessToken: string, accessTokenSecret: string)
      ensures this.apiKey == apiKey && this.apiSecret == apiSecret
      ensures this.accessToken == accessToken && this.accessTokenSecret == accessTokenSecret
      ensures !authenticated && created == []
    {
      this.apiKey := apiKey;
      this.apiSecret := apiSecret;
      this.accessToken := accessToken;
      this.accessTokenSecret := accessTokenSecret;
      authenticated := false;
      created := [];
    }

    /** `authenticate`: fails when any credential is missing, otherwise sets up the client. */
    method Authenticate() returns (r: Result<bool, PostError>)
      modifies this
      ensures r.Ok? <==> HasCredentials()
      ensures r.Err? ==> r.error == MissingCredentials && authenticated == old(authenticated)
      ensures r.Ok? ==> authenticated
      ensures created == old(created)
      ensures apiKey == old(apiKey) && apiSecret == old(apiSecret)
      ensures accessToken == old(accessToken) && accessTokenSecret == old(accessTokenSecret)
    {
      if !HasCredentials() {
        return Err(MissingCredentials);
      }
      authenticated := true;
      return Ok(true);
    }

    /** `post_tweet`: authenticates when needed, refuses a text whose effective length exceeds
        280 before any call to the API, and otherwise creates the tweet and reports both
        lengths. `reply` is the API's answer and `now` the time stamp. */
    method PostTweet(text: string, reply: ApiReply, now: string) returns (r: Result<PostRecord, PostError>)
      modifies this
      ensures apiKey == old(apiKey) && apiSecret == old(apiSecret)
      ensures accessToken == old(accessToken) && accessTokenSecret == old(accessTokenSecret)
      ensures authenticated == (old(authenticated) || HasCredentials())
      ensures !old(authenticated) && !HasCredentials() ==>
        r == Err(MissingCredentials) && created == old(created)
      ensures (old(authenticated) || HasCredentials()) && TweetLength(text) > 280 ==>
        r == Err(TooLong(TweetLength(text), |text|)) && created == old(created)
      ensures (old(authenticated) || HasCredentials()) && TweetLength(text) <= 280 ==>
        created == old(created) + [text] &&
        r == (match reply
              case Created(id) => Ok(PostRecord(id, text, now, |text|, TweetLength(text), "posted"))
              case Failed(m) => Err(ApiError(m)))
      ensures r.Ok? ==> r.value.effectiveCharacterCount <= 280 && r.value.characterCount == |text|
      ensures r == PostResult(old(authenticated) || HasCredentials(), text, reply, now)
    {
      if !authenticated {
        var auth := Authenticate();
        if auth.Err? {
          return Err(auth.error);
        }
      }
      var effective := CalculateTweetLength(text);
      if effective > 280 {
        return Err(TooLong(effective, |text|));
      }
      created := created + [text];
      match reply {
        case Created(id) =>
          return Ok(PostRecord(id, text, now, |text|, effective, "posted"));
        case Failed(m) =>
          return Err(ApiError(m));
      }
    }
  }
}
