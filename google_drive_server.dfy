/** The newsletter parser (`DocumentParser`) and the list checks of google_drive_server.py.
    The regular expressions of the source are written out as scanning functions. */
module GoogleDriveServer {
  import opened Common
  import opened Strings

  /** `@dataclass Article` */
  datatype Article = Article(
    number: nat, title: string, url: string, content: string,
    wordCount: nat, hasTitle: bool, hasUrl: bool)

  /** The derived fields of a parsed article agree with its text fields. */
  predicate Consistent(a: Article) {
    && a.hasTitle == (a.title != "")
    && a.hasUrl == (a.url != "")
    && a.wordCount == |Words(a.content)|
  }

  // ----- scanning helpers -----

  /** `re.search` over `s` from `from`: the first position whose suffix `at` accepts. */
  function Search(s: string, from: nat, at: string -> bool): (r: Option<nat>)
    ensures r.Some? ==> from <= r.value <= |s| && at(s[r.value..])
    ensures r.Some? ==> forall q :: from <= q < r.value ==> !at(s[q..])
    ensures r.None? ==> forall q :: from <= q <= |s| ==> !at(s[q..])
    decreases |s| - from
  {
    if from > |s| then None
    else if at(s[from..]) then Some(from)
    else Search(s, from + 1, at)
  }

  /** `s` starts with the lower-case word `p`, ignoring the case of ASCII letters. */
  predicate StartsWithIgnoreCase(s: string, p: string) {
    |p| <= |s| && Lower(s[..|p|]) == p
  }

  /** The number of leading ASCII digits. */
  function DigitRun(s: string): (n: nat)
    ensures n <= |s| && (forall i :: 0 <= i < n ==> IsDigit(s[i])) && (n == |s| || !IsDigit(s[n]))
  {
    if s == [] || !IsDigit(s[0]) then 0 else 1 + DigitRun(s[1..])
  }

  /** `int(digits)` */
  function DigitsValue(ds: string): nat
    requires forall i :: 0 <= i < |ds| ==> IsDigit(ds[i])
  {
    if ds == [] then 0
    else
      var last := ds[|ds| - 1];
      assert IsDigit(last);
      DigitsValue(ds[..|ds| - 1]) * 10 + (last as int - '0' as int)
  }

  /** Where the '#' of an `Article\s*#` stands, given that `t` starts with "Article" in
      some case. */
  function HashPos(t: string): nat
    requires |t| >= 7
  {
    7 + LeadingSpaces(t[7..])
  }

  /** `t` starts with the word "Article", capitalised exactly so. */
  predicate ArticleWordAt(t: string) {
    && |t| >= 7
    && t[0] == 'A' && t[1] == 'r' && t[2] == 't' && t[3] == 'i'
    && t[4] == 'c' && t[5] == 'l' && t[6] == 'e'
  }

  /** `t` starts with the word "article" in any mix of ASCII case. */
  predicate ArticleWordIgnoreCaseAt(t: string) {
    && |t| >= 7
    && LowerChar(t[0]) == 'a' && LowerChar(t[1]) == 'r' && LowerChar(t[2]) == 't'
    && LowerChar(t[3]) == 'i' && LowerChar(t[4]) == 'c' && LowerChar(t[5]) == 'l'
    && LowerChar(t[6]) == 'e'
  }

  /** `Article\s*#\d+\s*\n` matches at the start of `t` (case-sensitive): the split marker. */
  predicate SectionHeaderAt(t: string) {
    && ArticleWordAt(t)
    && var i := HashPos(t);
    && i < |t| && t[i] == '#'
    && var d := DigitRun(t[i + 1..]);
    && d > 0
    && var rest := t[i + 1 + d..];
    && '\n' in rest[..LeadingSpaces(rest)]
  }

  /** `Article\s*#\d+` matches at the start of `t`, ignoring case. */
  predicate NumberLabelAt(t: string) {
    && ArticleWordIgnoreCaseAt(t)
    && var i := HashPos(t);
    && i + 1 < |t| && t[i] == '#' && IsDigit(t[i + 1])
  }

  /** The value of the `(\d+)` group of a number label at the start of `t`. */
  function LabelNumber(t: string): nat
    requires NumberLabelAt(t)
  {
    var i := HashPos(t);
    var d := DigitRun(t[i + 1..]);
    DigitsValue(t[i + 1..i + 1 + d])
  }

  /** `Article\s*#{n}\s+<field>` matches at the start of `t` (ignoring case); the index just
      after the field name. */
  function LabelEnd(t: string, n: nat, field: string): (r: Option<nat>)
    ensures r.Some? ==> r.value <= |t|
  {
    if !ArticleWordIgnoreCaseAt(t) then None
    else
      var i := HashPos(t);
      var ns := NatToString(n);
      if i < |t| && t[i] == '#' && StartsWith(t[i + 1..], ns) then
        var j := i + 1 + |ns|;
        var w := LeadingSpaces(t[j..]);
        if w > 0 && StartsWithIgnoreCase(t[j + w..], field) then Some(j + w + |field|) else None
      else None
  }

  /** The `\s*(.+?)(?=\n)` part after a label, stripped: the rest of the line after the
      leading whitespace, or "" when no newline follows. */
  function LineValue(t: string): (v: string)
  {
    var w := LeadingSpaces(t);
    match Find(t, "\n", w)
    case None => ""
    case Some(q) => Strip(t[w..q])
  }

  /** The stripped value of the first `Article #n <field>` line of `section`, or "". */
  function LabelledValue(section: string, n: nat, field: string): string {
    match Search(section, 0, (t: string) => LabelEnd(t, n, field).Some?)
    case None => ""
    case Some(p) => LineValue(section[p + LabelEnd(section[p..], n, field).value..])
  }

  /** "\n\s*\n" matches at the start of `t`. */
  predicate BlankLineAt(t: string) {
    |t| >= 1 && t[0] == '\n' && '\n' in t[1..][..LeadingSpaces(t[1..])]
  }

  /** The index of the last newline of `w`. */
  function LastNewline(w: string): (k: nat)
    requires '\n' in w
    ensures k < |w| && w[k] == '\n' && '\n' !in w[k + 1..]
  {
    if w[|w| - 1] == '\n' then |w| - 1
    else
      assert w == w[..|w| - 1] + [w[|w| - 1]];
      LastNewline(w[..|w| - 1])
  }

  /** The `(.+?)(?=Article\s*#\d+|$)` group after the first blank line that follows the
      article's URL label; "" when there is no URL label or no blank line after it. The
      group starts right after the last newline of the blank line's whitespace run, where
      the backtracking `\s*` leaves it, and runs to the next `Article #<digits>` after its
      first character or to the end. */
  function RawContent(section: string, n: nat): string {
    match Search(section, 0, (t: string) => LabelEnd(t, n, "url:").Some?)
    case None => ""
    case Some(p) =>
      var e := p + LabelEnd(section[p..], n, "url:").value;
      match Search(section, e, BlankLineAt)
      case None => ""
      case Some(a) =>
        var t := section[a..];
        var run := t[1..][..LeadingSpaces(t[1..])];
        var b := a + 1 + LastNewline(run) + 1;
        if b >= |section| then ""
        else
          var c := match Search(section, b + 1, NumberLabelAt) case Some(c) => c case None => |section|;
          section[b..c]
  }

  // ----- re.sub(r'\n\s*\n\s*\n+', '\n\n', content) -----

  function NewlineCount(s: string): nat {
    if s == [] then 0 else (if s[0] == '\n' then 1 else 0) + NewlineCount(s[1..])
  }

  lemma {:induction false} NewlineCountConcat(a: string, b: string)
    ensures NewlineCount(a + b) == NewlineCount(a) + NewlineCount(b)
    decreases |a|
  {
    if a != [] {
      assert (a + b)[0] == a[0];
      assert (a + b)[1..] == a[1..] + b;
      NewlineCountConcat(a[1..], b);
    } else {
      assert a + b == b;
    }
  }

  lemma {:induction false} NewlineCountNone(s: string)
    ensures NewlineCount(s) == 0 <==> '\n' !in s
    decreases |s|
  {
    if s != [] {
      NewlineCountNone(s[1..]);
      assert s == [s[0]] + s[1..];
    }
  }

  /** Three newline positions mean at least three newlines. */
  lemma ThreeNewlines(s: string, i: int, j: int, k: int)
    requires 0 <= i < j < k < |s| && s[i] == '\n' && s[j] == '\n' && s[k] == '\n'
    ensures NewlineCount(s) >= 3
  {
    assert s == s[..j] + s[j..k] + s[k..];
    NewlineCountConcat(s[..j] + s[j..k], s[k..]);
    NewlineCountConcat(s[..j], s[j..k]);
    assert s[..j][i] == '\n';
    assert s[j..k][0] == '\n';
    assert s[k..][0] == '\n';
    NewlineCountNone(s[..j]);
    NewlineCountNone(s[j..k]);
    NewlineCountNone(s[k..]);
  }

  /** The number of leading characters of `s` that are not newlines. */
  function BeforeNewline(s: string): (n: nat)
    ensures n <= |s| && '\n' !in s[..n] && (n == |s| || s[n] == '\n')
  {
    if s == [] || s[0] == '\n' then 0
    else
      var m := BeforeNewline(s[1..]);
      assert s[..1 + m] == [s[0]] + s[1..][..m];
      1 + m
  }

  /** The number of trailing characters of `s` that are not newlines. */
  function AfterNewline(s: string): (n: nat)
    ensures n <= |s| && '\n' !in s[|s| - n..] && (n == |s| || s[|s| - n - 1] == '\n')
  {
    if s == [] || s[|s| - 1] == '\n' then 0
    else
      var p := s[..|s| - 1];
      var m := AfterNewline(p);
      assert s[|s| - (1 + m)..] == p[|p| - m..] + [s[|s| - 1]];
      1 + m
  }

  /** One maximal whitespace run after the substitution: with three or more newlines, the
      stretch from its first to its last newline becomes "\n\n". */
  function CollapseRun(run: string): (r: string)
    requires AllSpace(run)
    ensures AllSpace(r) && NewlineCount(r) <= 2
    ensures NewlineCount(run) <= 2 ==> r == run
    ensures run != [] ==> r != []
  {
    if NewlineCount(run) <= 2 then run
    else
      var f := BeforeNewline(run);
      var l := |run| - AfterNewline(run);
      NewlineCountNone(run);
      var pre, post := run[..f], run[l..];
      NewlineCountNone(pre);
      NewlineCountNone(post);
      NewlineCountConcat(pre + "\n\n", post);
      NewlineCountConcat(pre, "\n\n");
      assert NewlineCount("\n\n") == 2 by {
        assert "\n\n"[1..] == "\n";
        assert "\n"[1..] == "";
      }
      pre + "\n\n" + post
  }

  /** The substitution over a whole text: every maximal whitespace run collapsed. */
  function CollapseBlankLines(s: string): (r: string)
    decreases |s|
  {
    if s == [] then []
    else if IsSpace(s[0]) then
      var w := LeadingSpaces(s);
      CollapseRun(s[..w]) + CollapseBlankLines(s[w..])
    else [s[0]] + CollapseBlankLines(s[1..])
  }

  /** Three newlines with nothing but whitespace between them. */
  predicate HasTripleBreak(s: string) {
    exists i, j, k :: 0 <= i < j < k < |s| && s[i] == '\n' && s[j] == '\n' && s[k] == '\n'
      && AllSpace(s[i..k])
  }

  lemma TripleShift(x: string, y: string, i: int, j: int, k: int)
    requires |x| <= i < j < k < |x + y|
    requires (x + y)[i] == '\n' && (x + y)[j] == '\n' && (x + y)[k] == '\n' && AllSpace((x + y)[i..k])
    ensures HasTripleBreak(y)
  {
    var d := |x|;
    assert (x + y)[i..k] == y[i - d..k - d];
    assert y[i - d] == '\n' && y[j - d] == '\n' && y[k - d] == '\n';
  }

  /** Text that starts without whitespace keeps its first character. */
  lemma CollapseFirst(s: string)
    requires s != [] && !IsSpace(s[0])
    ensures CollapseBlankLines(s) != [] && CollapseBlankLines(s)[0] == s[0]
  {
  }

  lemma SpaceInside(r: string, i: int, k: int, m: int)
    requires 0 <= i <= m < k <= |r| && AllSpace(r[i..k])
    ensures IsSpace(r[m])
  {
    assert r[i..k][m - i] == r[m];
  }

  /** A whitespace stretch ending in a newline cannot cross into text that starts with a
      non-whitespace character. */
  lemma NoCrossing(x: string, y: string, i: int, k: int)
    requires 0 <= i < k < |x + y| && (x + y)[k] == '\n' && AllSpace((x + y)[i..k])
    requires y == [] || !IsSpace(y[0])
    ensures k < |x| || |x| <= i
  {
    if i < |x| < k {
      SpaceInside(x + y, i, k, |x|);
    }
  }

  /** A whitespace run with at most two newlines, followed by text that starts with a
      non-whitespace character and has no triple break, has none either. */
  lemma RunThenText(x: string, y: string)
    requires AllSpace(x) && NewlineCount(x) <= 2
    requires !HasTripleBreak(y) && (y == [] || !IsSpace(y[0]))
    ensures !HasTripleBreak(x + y)
  {
    var r := x + y;
    if HasTripleBreak(r) {
      var i, j, k :| 0 <= i < j < k < |r| && r[i] == '\n' && r[j] == '\n' && r[k] == '\n'
        && AllSpace(r[i..k]);
      NoCrossing(x, y, i, k);
      if k < |x| {
        assert x[i] == '\n' && x[j] == '\n' && x[k] == '\n';
        ThreeNewlines(x, i, j, k);
      } else if i >= |x| {
        TripleShift(x, y, i, j, k);
      }
    }
  }

  /** A non-whitespace character in front keeps a text free of triple breaks. */
  lemma CharThenText(c: char, y: string)
    requires !IsSpace(c) && !HasTripleBreak(y)
    ensures !HasTripleBreak([c] + y)
  {
    var r := [c] + y;
    if HasTripleBreak(r) {
      var i, j, k :| 0 <= i < j < k < |r| && r[i] == '\n' && r[j] == '\n' && r[k] == '\n'
        && AllSpace(r[i..k]);
      if i > 0 {
        TripleShift([c], y, i, j, k);
      }
    }
  }

  /** After the substitution no three newlines are separated only by whitespace. */
  lemma {:induction false} CollapseNoTripleBreak(s: string)
    ensures !HasTripleBreak(CollapseBlankLines(s))
    decreases |s|
  {
    if s != [] {
      if IsSpace(s[0]) {
        var w := LeadingSpaces(s);
        CollapseNoTripleBreak(s[w..]);
        if w < |s| {
          CollapseFirst(s[w..]);
        }
        RunThenText(CollapseRun(s[..w]), CollapseBlankLines(s[w..]));
      } else {
        CollapseNoTripleBreak(s[1..]);
        CharThenText(s[0], CollapseBlankLines(s[1..]));
      }
    }
  }

  /** Text that ends without whitespace keeps its last character. */
  lemma {:induction false} CollapseLast(s: string)
    requires s != [] && !IsSpace(s[|s| - 1])
    ensures var r := CollapseBlankLines(s); r != [] && r[|r| - 1] == s[|s| - 1]
    decreases |s|
  {
    if IsSpace(s[0]) {
      var w := LeadingSpaces(s);
      assert w < |s|;
      CollapseLast(s[w..]);
    } else if |s| > 1 {
      CollapseLast(s[1..]);
    }
  }

  /** Collapsing stripped content keeps it stripped. */
  lemma CleanedContentStripped(s: string)
    ensures var r := CollapseBlankLines(Strip(s));
      (r == [] <==> AllSpace(s)) && (r != [] ==> !IsSpace(r[0]) && !IsSpace(r[|r| - 1]))
  {
    var t := Strip(s);
    if t != [] {
      CollapseFirst(t);
      CollapseLast(t);
    }
  }

  // ----- _parse_article_section -----

  /** `_parse_article_section`: None when the section has no `Article #<digits>`; otherwise
      the article with that number, its title, URL and cleaned content ("" when missing) and
      the derived fields. */
  function ParseSection(section: string): (r: Option<Article>)
    ensures r.None? <==> Search(section, 0, NumberLabelAt).None?
    ensures r.Some? ==> Consistent(r.value)
    ensures r.Some? ==> !HasTripleBreak(r.value.content)
  {
    match Search(section, 0, NumberLabelAt)
    case None => None
    case Some(p) =>
      var n := LabelNumber(section[p..]);
      var title := LabelledValue(section, n, "title:");
      var url := LabelledValue(section, n, "url:");
      var content := CollapseBlankLines(Strip(RawContent(section, n)));
      CollapseNoTripleBreak(Strip(RawContent(section, n)));
      Some(Article(n, title, url, content, |Words(content)|, title != "", url != ""))
  }

  /** The cleaned content of every parsed article is stripped. */
  lemma ParsedContentStripped(section: string)
    requires ParseSection(section).Some?
    ensures var c := ParseSection(section).value.content;
      c == [] || (!IsSpace(c[0]) && !IsSpace(c[|c| - 1]))
  {
    var p := Search(section, 0, NumberLabelAt).value;
    CleanedContentStripped(RawContent(section, LabelNumber(section[p..])));
  }

  // ----- _extract_articles -----

  function Concat(ss: seq<string>): string {
    if ss == [] then "" else ss[0] + Concat(ss[1..])
  }

  /** The pieces of `s` cut before every later position where `at` holds. */
  function Pieces(s: string, at: string -> bool): (ps: seq<string>)
    ensures |ps| >= 1 && Concat(ps) == s
    decreases |s|
  {
    match Search(s, 1, at)
    case None => [s]
    case Some(q) =>
      if q == |s| then [s]
      else
        var rest := Pieces(s[q..], at);
        var ps := [s[..q]] + rest;
        assert s == s[..q] + s[q..];
        assert ps[1..] == rest;
        ps
  }

  /** Every later piece starts where the split marker matches the text, and the marker
      matches nowhere inside a piece. */
  lemma PiecesSplitPoints(s: string, at: string -> bool)
    ensures forall k :: 1 <= k < |Pieces(s, at)| ==> at(Concat(Pieces(s, at)[k..]))
    ensures forall k, q :: 0 <= k < |Pieces(s, at)| && 0 < q < |Pieces(s, at)[k]| ==>
      !at(Concat(Pieces(s, at)[k..])[q..])
  {
    PiecesStartAtMatches(s, at);
    PiecesNoInnerMatch(s, at);
  }

  /** Every piece after the first starts at a position where the marker matches. */
  lemma {:induction false} PiecesStartAtMatches(s: string, at: string -> bool)
    ensures forall k :: 1 <= k < |Pieces(s, at)| ==> at(Concat(Pieces(s, at)[k..]))
    decreases |s|
  {
    var ps := Pieces(s, at);
    match Search(s, 1, at)
    case None =>
    case Some(q) =>
      if q < |s| {
        var rest := Pieces(s[q..], at);
        PiecesStartAtMatches(s[q..], at);
        assert ps == [s[..q]] + rest;
        forall k | 1 <= k < |ps|
          ensures at(Concat(ps[k..]))
        {
          assert ps[k..] == rest[k - 1..];
          if k == 1 {
            assert rest[0..] == rest;
            assert Concat(rest) == s[q..] && at(s[q..]);
          } else {
            assert at(Concat(rest[k - 1..]));
          }
        }
      }
  }

  /** The marker matches nowhere inside a piece after its first character. */
  lemma {:induction false} PiecesNoInnerMatch(s: string, at: string -> bool)
    ensures forall k, q :: 0 <= k < |Pieces(s, at)| && 0 < q < |Pieces(s, at)[k]| ==>
      !at(Concat(Pieces(s, at)[k..])[q..])
    decreases |s|
  {
    var ps := Pieces(s, at);
    match Search(s, 1, at)
    case None =>
      assert ps[0..] == ps;
    case Some(q) =>
      if q == |s| {
        assert ps[0..] == ps;
      } else {
        var rest := Pieces(s[q..], at);
        PiecesNoInnerMatch(s[q..], at);
        assert ps == [s[..q]] + rest;
        forall k, p | 0 <= k < |ps| && 0 < p < |ps[k]|
          ensures !at(Concat(ps[k..])[p..])
        {
          if k == 0 {
            assert ps[0..] == ps;
          } else {
            assert ps[k..] == rest[k - 1..];
          }
        }
      }
  }

  /** `re.split` on a zero-width lookahead: `text` cut before every position where `at`
      holds; a match at the very start gives an empty first piece. */
  function SplitBefore(text: string, at: string -> bool): (ss: seq<string>)
    ensures |ss| >= 1 && Concat(ss) == text
  {
    if at(text) then
      var ps := Pieces(text, at);
      var ss := [""] + ps;
      assert ss[1..] == ps;
      ss
    else Pieces(text, at)
  }

  /** The cut points of `SplitBefore` are exactly the positions where `at` holds: after the
      first piece every piece starts at a match, and no piece holds one after its first
      character. */
  lemma SplitBeforePoints(text: string, at: string -> bool)
    ensures forall k :: 1 <= k < |SplitBefore(text, at)| ==> at(Concat(SplitBefore(text, at)[k..]))
    ensures forall k, q :: 0 <= k < |SplitBefore(text, at)| && 0 < q < |SplitBefore(text, at)[k]| ==>
      !at(Concat(SplitBefore(text, at)[k..])[q..])
  {
    PiecesSplitPoints(text, at);
    if at(text) {
      var ps := Pieces(text, at);
      var ss := [""] + ps;
      forall k | 1 <= k < |ss|
        ensures at(Concat(ss[k..]))
      {
        assert ss[k..] == ps[k - 1..];
        if k == 1 {
          assert ps[0..] == ps;
        }
      }
      forall k, p | 0 <= k < |ss| && 0 < p < |ss[k]|
        ensures !at(Concat(ss[k..])[p..])
      {
        assert ss[k..] == ps[k - 1..] && ss[k] == ps[k - 1];
      }
    }
  }

  /** `re.split(r'(?=Article\s*#\d+\s*\n)', text)`: the sections of the document, each
      but the first starting at a split marker (see `SplitBeforePoints`). */
  function Sections(text: string): (ss: seq<string>)
    ensures |ss| >= 1 && Concat(ss) == text
  {
    SplitBefore(text, SectionHeaderAt)
  }

  /** What one section contributes: nothing when it is blank or has no article number,
      otherwise its parsed article. */
  function SectionArticles(section: string): (r: seq<Article>)
    ensures |r| <= 1
    ensures r == [] <==> IsBlank(section) || Search(section, 0, NumberLabelAt).None?
    ensures r != [] ==> Consistent(r[0]) && Some(r[0]) == ParseSection(section)
  {
    if IsBlank(section) then []
    else match ParseSection(section)
      case None => []
      case Some(a) => [a]
  }

  /** The articles the loop of `_extract_articles` appends for `sections`, in order. */
  function ArticlesOf(sections: seq<string>): (arts: seq<Article>)
    ensures |arts| <= |sections|
  {
    if sections == [] then []
    else ArticlesOf(sections[..|sections| - 1]) + SectionArticles(sections[|sections| - 1])
  }

  /** One more section adds what that section contributes. */
  lemma ArticlesOfPrefix(sections: seq<string>, i: nat)
    requires i < |sections|
    ensures ArticlesOf(sections[..i + 1]) == ArticlesOf(sections[..i]) + SectionArticles(sections[i])
  {
    assert sections[..i + 1][..i] == sections[..i];
  }

  /** Every collected article is consistent. */
  lemma {:induction false} ArticlesConsistent(sections: seq<string>)
    ensures forall a :: a in ArticlesOf(sections) ==> Consistent(a)
    decreases |sections|
  {
    if sections != [] {
      ArticlesConsistent(sections[..|sections| - 1]);
    }
  }

  /** Sections contribute their articles independently and in document order. */
  lemma {:induction false} ArticlesOfConcat(x: seq<string>, y: seq<string>)
    ensures ArticlesOf(x + y) == ArticlesOf(x) + ArticlesOf(y)
    decreases |y|
  {
    if y == [] {
      assert x + y == x;
    } else {
      var y0, last := y[..|y| - 1], y[|y| - 1];
      var xy := x + y;
      assert xy[..|xy| - 1] == x + y0;
      assert xy[|xy| - 1] == last;
      calc {
        ArticlesOf(xy);
        ArticlesOf(x + y0) + SectionArticles(last);
        { ArticlesOfConcat(x, y0); }
        (ArticlesOf(x) + ArticlesOf(y0)) + SectionArticles(last);
        { AppendAssoc(ArticlesOf(x), ArticlesOf(y0), SectionArticles(last)); }
        ArticlesOf(x) + (ArticlesOf(y0) + SectionArticles(last));
        ArticlesOf(x) + ArticlesOf(y);
      }
    }
  }

  /** The loop of `_extract_articles` over the sections of `text`: blank sections are
      skipped, and every section that parses contributes its article, in order. */
  method CollectArticles(text: string) returns (found: seq<Article>)
    ensures found == ArticlesOf(Sections(text))
  {
    var sections := Sections(text);
    found := [];
    for i := 0 to |sections|
      invariant found == ArticlesOf(sections[..i])
    {
      ArticlesOfPrefix(sections, i);
      var section := sections[i];
      if IsBlank(section) {
        continue;
      }
      var article := ParseSection(section);
      if article.Some? {
        found := found + [article.value];
      }
    }
    assert sections[..|sections|] == sections;
  }

  /** `DocumentParser`: the document text and the articles found so far. */
  class DocumentParser {
    var documentText: string
    var articles: seq<Article>

    constructor(documentText: string)
      ensures this.documentText == documentText && articles == []
    {
      this.documentText := documentText;
      articles := [];
    }

    /** `_extract_articles`: appends the article of every non-blank section that has a number,
        in document order, to what is already there. */
    method ExtractArticles()
      modifies this
      ensures documentText == old(documentText)
      ensures articles == old(articles) + ArticlesOf(Sections(documentText))
    {
      var found := CollectArticles(documentText);
      articles := articles + found;
    }

    /** `parse`: extracts and returns the whole list; a second call appends the same articles
        again, as the source does. */
    method Parse() returns (result: seq<Article>)
      modifies this
      ensures documentText == old(documentText)
      ensures articles == old(articles) + ArticlesOf(Sections(documentText))
      ensures result == articles
    {
      ExtractArticles();
      result := articles;
    }
  }

  // ----- get_article_by_number -----

  /** The index of the first article with number `n`. */
  function IndexOfNumber(articles: seq<Article>, n: int): (r: Option<nat>)
    ensures r.Some? ==> r.value < |articles| && articles[r.value].number == n
    ensures r.Some? ==> forall j :: 0 <= j < r.value ==> articles[j].number != n
    ensures r.None? <==> forall j :: 0 <= j < |articles| ==> articles[j].number != n
  {
    if articles == [] then None
    else if articles[0].number == n then Some(0)
    else match IndexOfNumber(articles[1..], n)
      case None => None
      case Some(i) => Some(i + 1)
  }

  /** `get_article_by_number`: the first article with the number, or the not-found error. */
  method GetArticleByNumber(articles: seq<Article>, n: int) returns (r: Result<Article, int>)
    ensures IndexOfNumber(articles, n).Some? ==> r == Ok(articles[IndexOfNumber(articles, n).value])
    ensures IndexOfNumber(articles, n).None? ==> r == Err(n)
  {
    for i := 0 to |articles|
      invariant forall j :: 0 <= j < i ==> articles[j].number != n
    {
      if articles[i].number == n {
        return Ok(articles[i]);
      }
    }
    return Err(n);
  }

  // ----- validate_document_structure -----

  datatype StructureIssue = NumberingGap(expected: int, found: int)

  datatype StructureWarning =
    | MissingTitle(number: int)
    | MissingUrl(number: int)
    | ShortContent(number: int, words: int)

  /** The dictionary `validate_document_structure` returns, without the float average. */
  datatype StructureReport = StructureReport(
    totalArticles: nat, articlesWithTitles: nat, articlesWithUrls: nat, totalWords: nat,
    issues: seq<StructureIssue>, warnings: seq<StructureWarning>, valid: bool)

  /** The numbering scan from `expected`: an issue whenever the number differs, and the
      expectation moves to the number just seen plus one. */
  function NumberingIssues(articles: seq<Article>, expected: int): seq<StructureIssue> {
    if articles == [] then []
    else
      var a := articles[0];
      (if a.number != expected then [NumberingGap(expected, a.number)] else [])
      + NumberingIssues(articles[1..], a.number + 1)
  }

  /** No issue is reported exactly when the articles are numbered `expected`,
      `expected + 1`, ... in order. */
  lemma {:induction false} NoIssuesIffSequential(articles: seq<Article>, expected: int)
    ensures NumberingIssues(articles, expected) == [] <==>
      forall i :: 0 <= i < |articles| ==> articles[i].number == expected + i
    decreases |articles|
  {
    if articles != [] {
      NoIssuesIffSequential(articles[1..], articles[0].number + 1);
      if articles[0].number == expected {
        assert forall i :: 1 <= i < |articles| ==> articles[i] == articles[1..][i - 1];
      }
    }
  }

  /** Each out-of-place number is reported once, against the number before it. */
  lemma {:induction false} IssuesAtMostOnePerArticle(articles: seq<Article>, expected: int)
    ensures |NumberingIssues(articles, expected)| <= |articles|
    decreases |articles|
  {
    if articles != [] {
      IssuesAtMostOnePerArticle(articles[1..], articles[0].number + 1);
    }
  }

  function ArticleWarnings(a: Article): seq<StructureWarning> {
    (if !a.hasTitle then [MissingTitle(a.number)] else [])
    + (if !a.hasUrl then [MissingUrl(a.number)] else [])
    + (if a.wordCount < 50 then [ShortContent(a.number, a.wordCount)] else [])
  }

  function Warnings(articles: seq<Article>): seq<StructureWarning> {
    if articles == [] then [] else ArticleWarnings(articles[0]) + Warnings(articles[1..])
  }

  function CountTitles(articles: seq<Article>): nat {
    if articles == [] then 0 else (if articles[0].hasTitle then 1 else 0) + CountTitles(articles[1..])
  }

  function CountUrls(articles: seq<Article>): nat {
    if articles == [] then 0 else (if articles[0].hasUrl then 1 else 0) + CountUrls(articles[1..])
  }

  function TotalWords(articles: seq<Article>): nat {
    if articles == [] then 0 else articles[0].wordCount + TotalWords(articles[1..])
  }

  function CountShort(articles: seq<Article>): nat {
    if articles == [] then 0 else (if articles[0].wordCount < 50 then 1 else 0) + CountShort(articles[1..])
  }

  /** One warning per missing title, per missing URL and per short article. */
  lemma {:induction false} WarningCount(articles: seq<Article>)
    ensures |Warnings(articles)| ==
      (|articles| - CountTitles(articles)) + (|articles| - CountUrls(articles)) + CountShort(articles)
    ensures CountTitles(articles) <= |articles| && CountUrls(articles) <= |articles|
    decreases |articles|
  {
    if articles != [] {
      WarningCount(articles[1..]);
    }
  }

  lemma {:induction false} SplitLast(articles: seq<Article>)
    requires articles != []
    ensures var init, a := articles[..|articles| - 1], articles[|articles| - 1];
      && Warnings(articles) == Warnings(init) + ArticleWarnings(a)
      && CountTitles(articles) == CountTitles(init) + (if a.hasTitle then 1 else 0)
      && CountUrls(articles) == CountUrls(init) + (if a.hasUrl then 1 else 0)
      && TotalWords(articles) == TotalWords(init) + a.wordCount
    decreases |articles|
  {
    if |articles| > 1 {
      var t := articles[1..];
      var init, a := articles[..|articles| - 1], articles[|articles| - 1];
      SplitLast(t);
      assert t[..|t| - 1] == init[1..];
      assert t[|t| - 1] == a && init[0] == articles[0];
      calc {
        Warnings(articles);
        ArticleWarnings(articles[0]) + Warnings(t);
        ArticleWarnings(articles[0]) + (Warnings(init[1..]) + ArticleWarnings(a));
        { AppendAssoc(ArticleWarnings(articles[0]), Warnings(init[1..]), ArticleWarnings(a)); }
        (ArticleWarnings(articles[0]) + Warnings(init[1..])) + ArticleWarnings(a);
        Warnings(init) + ArticleWarnings(a);
      }
    }
  }

  lemma {:induction false} NumberingSnoc(articles: seq<Article>, a: Article, expected: int)
    ensures NumberingIssues(articles + [a], expected) ==
      NumberingIssues(articles, expected) +
      (var e := if articles == [] then expected else articles[|articles| - 1].number + 1;
       if a.number != e then [NumberingGap(e, a.number)] else [])
    decreases |articles|
  {
    if articles != [] {
      assert (articles + [a])[1..] == articles[1..] + [a];
      NumberingSnoc(articles[1..], a, articles[0].number + 1);
    } else {
      assert [a][1..] == [];
    }
  }

  /** The numbering scan of `validate_document_structure`: each article is expected to
      follow the one before it, the first to be article 1. */
  method ScanNumbering(articles: seq<Article>) returns (issues: seq<StructureIssue>)
    ensures issues == NumberingIssues(articles, 1)
  {
    issues := [];
    var expected := 1;
    for i := 0 to |articles|
      invariant issues == NumberingIssues(articles[..i], 1)
      invariant expected == if i == 0 then 1 else articles[i - 1].number + 1
    {
      NumberingSnoc(articles[..i], articles[i], 1);
      assert articles[..i + 1] == articles[..i] + [articles[i]];
      if articles[i].number != expected {
        issues := issues + [NumberingGap(expected, articles[i].number)];
      }
      expected := articles[i].number + 1;
    }
    assert articles[..|articles|] == articles;
  }

  /** The warnings `validate_document_structure` records for one article, appended to the
      ones before it. */
  method AppendWarnings(warnings: seq<StructureWarning>, a: Article) returns (warnings': seq<StructureWarning>)
    ensures warnings' == warnings + ArticleWarnings(a)
  {
    warnings' := warnings;
    if !a.hasTitle {
      warnings' := warnings' + [MissingTitle(a.number)];
    }
    if !a.hasUrl {
      warnings' := warnings' + [MissingUrl(a.number)];
    }
    if a.wordCount < 50 {
      warnings' := warnings' + [ShortContent(a.number, a.wordCount)];
    }
  }

  /** The per-article scan of `validate_document_structure`: the warnings in article
      order and the three running counts. */
  method ScanContent(articles: seq<Article>) returns (warnings: seq<StructureWarning>, titles: int, urls: int, words: int)
    ensures warnings == Warnings(articles)
    ensures titles == CountTitles(articles) && urls == CountUrls(articles)
    ensures words == TotalWords(articles)
  {
    warnings := [];
    titles, urls, words := 0, 0, 0;
    for i := 0 to |articles|
      invariant warnings == Warnings(articles[..i])
      invariant titles == CountTitles(articles[..i]) && urls == CountUrls(articles[..i])
      invariant words == TotalWords(articles[..i])
    {
      var a := articles[i];
      SplitLast(articles[..i + 1]);
      assert articles[..i + 1][..i] == articles[..i];
      warnings := AppendWarnings(warnings, a);
      titles := titles + (if a.hasTitle then 1 else 0);
      urls := urls + (if a.hasUrl then 1 else 0);
      words := words + a.wordCount;
    }
    assert articles[..|articles|] == articles;
  }

  /** `validate_document_structure` over the parsed list: the numbering scan from 1, the
      per-article warnings, the counts, and "valid" iff no issue was found. */
  method ValidateDocumentStructure(articles: seq<Article>) returns (report: StructureReport)
    ensures report.totalArticles == |articles|
    ensures report.issues == NumberingIssues(articles, 1)
    ensures report.warnings == Warnings(articles)
    ensures report.articlesWithTitles == CountTitles(articles)
    ensures report.articlesWithUrls == CountUrls(articles)
    ensures report.totalWords == TotalWords(articles)
    ensures report.valid <==> forall i :: 0 <= i < |articles| ==> articles[i].number == 1 + i
  {
    var issues := ScanNumbering(articles);
    var warnings, titles, urls, words := ScanContent(articles);
    NoIssuesIffSequential(articles, 1);
    report := StructureReport(|articles|, titles, urls, words, issues, warnings, issues == []);
  }
}
