/** The parts of Python's `str` that the tweet processor relies on, over `seq<char>`. */
module Strings {
  import opened Common

  /** The code points that Python's `str.isspace()` accepts. `str.split()`, `str.strip()`
      and the `\s` class of `re` on `str` patterns all use this set. */
  predicate IsSpace(c: char) {
    || c == ' '
    || '\t' <= c <= '\r'
    || '\U{1c}' <= c <= '\U{1f}'
    || c == '\U{85}' || c == '\U{a0}' || c == '\U{1680}'
    || '\U{2000}' <= c <= '\U{200a}'
    || c == '\U{2028}' || c == '\U{2029}' || c == '\U{202f}' || c == '\U{205f}' || c == '\U{3000}'
  }

  predicate AllSpace(s: string) {
    forall i :: 0 <= i < |s| ==> IsSpace(s[i])
  }

  predicate NoSpace(s: string) {
    forall i :: 0 <= i < |s| ==> !IsSpace(s[i])
  }

  /** `[a-zA-Z0-9]` */
  predicate IsAsciiAlnum(c: char) {
    'a' <= c <= 'z' || 'A' <= c <= 'Z' || '0' <= c <= '9'
  }

  predicate IsDigit(c: char) {
    '0' <= c <= '9'
  }

  /** The number of leading whitespace characters of `s`. */
  function LeadingSpaces(s: string): (n: nat)
    ensures n <= |s| && AllSpace(s[..n])
    ensures n == |s| || !IsSpace(s[n])
  {
    if s == [] || !IsSpace(s[0]) then 0
    else
      var m := LeadingSpaces(s[1..]);
      assert s[..1 + m] == [s[0]] + s[1..][..m];
      1 + m
  }

  /** The number of trailing whitespace characters of `s`. */
  function TrailingSpaces(s: string): (n: nat)
    ensures n <= |s| && AllSpace(s[|s| - n..])
    ensures n == |s| || !IsSpace(s[|s| - n - 1])
  {
    if s == [] || !IsSpace(s[|s| - 1]) then 0
    else
      var p := s[..|s| - 1];
      var m := TrailingSpaces(p);
      assert s[|s| - (1 + m)..] == p[|p| - m..] + [s[|s| - 1]];
      1 + m
  }

  /** The length of the longest prefix of `s` without whitespace. */
  function NonSpaceRun(s: string): (n: nat)
    ensures n <= |s| && NoSpace(s[..n])
    ensures n == |s| || IsSpace(s[n])
  {
    if s == [] || IsSpace(s[0]) then 0
    else
      var m := NonSpaceRun(s[1..]);
      assert s[..1 + m] == [s[0]] + s[1..][..m];
      1 + m
  }

  /** `s.lstrip()` */
  function LStrip(s: string): (r: string)
    ensures |r| <= |s| && r == s[|s| - |r|..]
    ensures AllSpace(s[..|s| - |r|])
    ensures r == [] || !IsSpace(r[0])
  {
    s[LeadingSpaces(s)..]
  }

  /** `s.rstrip()` */
  function RStrip(s: string): (r: string)
    ensures |r| <= |s| && r == s[..|r|]
    ensures AllSpace(s[|r|..])
    ensures r == [] || !IsSpace(r[|r| - 1])
  {
    s[..|s| - TrailingSpaces(s)]
  }

  /** `s.strip()`: `s` without its leading and trailing whitespace. The result is a slice of
      `s` with only whitespace around it; it is empty exactly when `s` is all whitespace, and
      otherwise starts and ends with a character that is not whitespace. */
  function Strip(s: string): (r: string)
    ensures |r| <= |s|
    ensures exists i :: Framed(s, r, i)
    ensures r == [] <==> AllSpace(s)
    ensures r != [] ==> !IsSpace(r[0]) && !IsSpace(r[|r| - 1])
  {
    StripFrame(s);
    RStrip(LStrip(s))
  }

  /** `r` occurs in `s` at `i` with only whitespace before and after it. */
  predicate Framed(s: string, r: string, i: int) {
    OccursAt(s, r, i) && AllSpace(s[..i]) && AllSpace(s[i + |r|..])
  }

  lemma StripFrame(s: string)
    ensures Framed(s, RStrip(LStrip(s)), |s| - |LStrip(s)|)
    ensures RStrip(LStrip(s)) == [] ==> AllSpace(s)
  {
    var t := LStrip(s);
    var r := RStrip(t);
    var i := |s| - |t|;
    assert s[i..] == t;
    assert s[i..i + |r|] == r by {
      assert s[i..i + |r|] == s[i..][..|r|];
    }
    assert AllSpace(s[i + |r|..]) by {
      assert s[i + |r|..] == t[|r|..];
    }
    FramedBlank(s, r, i);
  }

  /** Nothing framed by whitespace leaves a text that is all whitespace. */
  lemma FramedBlank(s: string, r: string, i: int)
    requires Framed(s, r, i)
    ensures r == [] ==> AllSpace(s)
  {
    if r == [] {
      assert s == s[..i] + s[i..];
    }
  }

  /** `not s or not s.strip()` in the source: the string is empty or whitespace only. */
  predicate IsBlank(s: string) {
    AllSpace(s)
  }

  predicate StartsWith(s: string, prefix: string) {
    |prefix| <= |s| && s[..|prefix|] == prefix
  }

  predicate EndsWith(s: string, suffix: string) {
    |suffix| <= |s| && s[|s| - |suffix|..] == suffix
  }

  /** `sub` occurs in `s` starting at index `i`. */
  predicate OccursAt(s: string, sub: string, i: int) {
    0 <= i && i + |sub| <= |s| && s[i..i + |sub|] == sub
  }

  /** `sub in s` */
  predicate Contains(s: string, sub: string) {
    exists i :: 0 <= i <= |s| && OccursAt(s, sub, i)
  }

  /** `s.find(sub, start)`: the first index at or after `start` where `sub` occurs. */
  function Find(s: string, sub: string, start: nat): (r: Option<nat>)
    ensures r.Some? ==> start <= r.value && OccursAt(s, sub, r.value)
    ensures r.Some? ==> forall i :: start <= i < r.value ==> !OccursAt(s, sub, i)
    ensures r.None? ==> forall i :: start <= i ==> !OccursAt(s, sub, i)
    decreases |s| - start
  {
    if start + |sub| > |s| then None
    else if s[start..start + |sub|] == sub then Some(start)
    else Find(s, sub, start + 1)
  }

  lemma FindContains(s: string, sub: string)
    ensures Find(s, sub, 0).Some? <==> Contains(s, sub)
  {
    if Contains(s, sub) {
      var i :| OccursAt(s, sub, i);
    }
  }

  /** `s.replace(pattern, replacement, 1)`: the first occurrence of `pattern` replaced. */
  function ReplaceFirst(s: string, pattern: string, replacement: string): (r: string)
  {
    match Find(s, pattern, 0)
    case None => s
    case Some(i) => s[..i] + replacement + s[i + |pattern|..]
  }

  /** `s.split(sep)[0]`: the text before the first occurrence of `sep` (all of `s` if none). */
  function BeforeFirst(s: string, sep: string): (r: string)
    ensures StartsWith(s, r)
    ensures r == s <==> !Contains(s, sep) || (|sep| == 0 && s == [])
    ensures r != s ==> OccursAt(s, sep, |r|) && forall i :: 0 <= i < |r| ==> !OccursAt(s, sep, i)
  {
    FindContains(s, sep);
    match Find(s, sep, 0)
    case None => s
    case Some(i) => s[..i]
  }

  function LowerChar(c: char): char {
    if 'A' <= c <= 'Z' then (c as int + 32) as char else c
  }

  /** `s.lower()` for the ASCII letters A to Z; every other character is kept, so the
      non-ASCII mappings of Python's `lower()` are not part of this function. */
  function Lower(s: string): (r: string)
    ensures |r| == |s|
    ensures forall i :: 0 <= i < |s| ==> r[i] == LowerChar(s[i])
  {
    seq(|s|, i requires 0 <= i < |s| => LowerChar(s[i]))
  }

  /** A word of `s.split()`: nonempty and free of whitespace. */
  predicate IsWord(w: string) {
    w != [] && NoSpace(w)
  }

  /** `s` is whitespace, the first word, and then either its end or whitespace followed by
      the text that splits into the other words: the words are the maximal runs of `s`
      without whitespace, left to right. */
  ghost predicate SplitsInto(s: string, ws: seq<string>)
    decreases |ws|
  {
    if ws == [] then AllSpace(s)
    else exists i :: SplitAt(s, ws[0], i) && SplitsInto(s[i + |ws[0]|..], ws[1..])
  }

  /** `w` occurs in `s` at `i`, after only whitespace and before the end or whitespace. */
  predicate SplitAt(s: string, w: string, i: int) {
    && OccursAt(s, w, i) && AllSpace(s[..i])
    && (i + |w| == |s| || IsSpace(s[i + |w|]))
  }

  /** `s.split()`: the maximal runs of non-whitespace characters, left to right. */
  function Words(s: string): (ws: seq<string>)
    ensures forall k :: 0 <= k < |ws| ==> IsWord(ws[k])
    decreases |s|
  {
    var t := LStrip(s);
    if t == [] then []
    else
      var n := NonSpaceRun(t);
      assert n > 0 by {
        assert !IsSpace(t[0]);
      }
      var rest := Words(t[n..]);
      WordsCons(t[..n], rest);
      [t[..n]] + rest
  }

  /** `s.split()` lists the words of `s` in the one way `SplitsInto` describes. */
  lemma {:induction false} WordsSplit(s: string)
    ensures SplitsInto(s, Words(s))
    decreases |s|
  {
    var t := LStrip(s);
    if t != [] {
      var n := NonSpaceRun(t);
      WordsSplit(t[n..]);
      var l := |s| - |t|;
      FirstRunAt(s, t, n, l);
      assert SplitAt(s, t[..n], l);
      assert t[n..] == s[l + |t[..n]|..];
      assert SplitsInto(t[n..], Words(t[n..]));
      SplitsConsOf(s, l, t[..n], t[n..], Words(t[n..]));
    }
  }

  /** A first word in front of words keeps every word nonempty and free of whitespace. */
  lemma WordsCons(w: string, rest: seq<string>)
    requires IsWord(w)
    requires forall k :: 0 <= k < |rest| ==> IsWord(rest[k])
    ensures forall k :: 0 <= k < |[w] + rest| ==> IsWord(([w] + rest)[k])
  {
    forall k | 0 <= k < |[w] + rest|
      ensures IsWord(([w] + rest)[k])
    {
      if k > 0 {
        assert ([w] + rest)[k] == rest[k - 1];
      }
    }
  }

  /** Whitespace, then the first word, then the end or whitespace and a text splitting into
      the other words. */
  lemma SplitsCons(s: string, i: nat, ws: seq<string>)
    requires ws != [] && SplitAt(s, ws[0], i) && SplitsInto(s[i + |ws[0]|..], ws[1..])
    ensures SplitsInto(s, ws)
  {
  }

  /** `SplitsCons` for a list given as its first word and the others. */
  lemma SplitsConsOf(s: string, i: nat, w: string, u: string, rest: seq<string>)
    requires SplitAt(s, w, i) && u == s[i + |w|..] && SplitsInto(u, rest)
    ensures SplitsInto(s, [w] + rest)
  {
    ConsOf([w], rest);
    SplitsCons(s, i, [w] + rest);
  }

  /** The first non-whitespace run of a text that is not blank is a split point of it, right
      after its leading whitespace. */
  lemma FirstRunAt(s: string, t: string, n: nat, l: nat)
    requires t == LStrip(s) && t != [] && n == NonSpaceRun(t) && l == |s| - |t|
    ensures n <= |t| && SplitAt(s, t[..n], l)
    ensures s[l + |t[..n]|..] == t[n..]
  {
    assert s[l..l + n] == t[..n];
    if l + n < |s| {
      assert s[l + n] == t[n];
    }
  }

  /** The whitespace in front of the first word of an `s` that splits into words is
      exactly the leading whitespace of `s`. */
  lemma FirstWordAt(s: string, w: string, i: int)
    requires IsWord(w) && OccursAt(s, w, i) && AllSpace(s[..i])
    ensures i == LeadingSpaces(s)
  {
    var n := LeadingSpaces(s);
    assert !IsSpace(s[i]) by {
      assert s[i] == w[0];
    }
  }

  /** A word followed by the end or by whitespace spans the whole non-whitespace run. */
  lemma WordIsRun(t: string, w: string)
    requires IsWord(w) && StartsWith(t, w)
    requires |w| == |t| || IsSpace(t[|w|])
    ensures |w| == NonSpaceRun(t)
  {
    RunUnique(t, |w|);
  }

  /** The only whitespace-free prefix followed by the end or by whitespace is the longest. */
  lemma {:induction false} RunUnique(t: string, k: nat)
    requires k <= |t| && NoSpace(t[..k])
    requires k == |t| || IsSpace(t[k])
    ensures k == NonSpaceRun(t)
    decreases k
  {
    if k > 0 {
      assert t[0] == t[..k][0];
      assert t[1..][..k - 1] == t[..k][1..];
      RunUnique(t[1..], k - 1);
    }
  }

  /** A text splits into words in one way only: that of `s.split()`. */
  lemma SplitsUnique(s: string, ws: seq<string>)
    requires forall k :: 0 <= k < |ws| ==> IsWord(ws[k])
    requires SplitsInto(s, ws)
    ensures ws == Words(s)
  {
    WordsSplit(s);
    SplitsSame(s, ws, Words(s));
  }

  /** Two splittings of the same text into words are the same. */
  lemma {:induction false} SplitsSame(s: string, ws: seq<string>, vs: seq<string>)
    requires forall k :: 0 <= k < |ws| ==> IsWord(ws[k])
    requires forall k :: 0 <= k < |vs| ==> IsWord(vs[k])
    requires SplitsInto(s, ws) && SplitsInto(s, vs)
    ensures ws == vs
    decreases |ws|
  {
    SplitsBlank(s, ws);
    SplitsBlank(s, vs);
    if ws != [] && vs != [] {
      var rest := SplitsStep(s, ws, vs);
      TailWords(ws);
      TailWords(vs);
      SplitsSame(rest, ws[1..], vs[1..]);
      HeadTail(ws, vs);
    }
  }

  /** Two splittings into words start with the same word, and the rest of the text after it
      splits into both of their other words. */
  lemma SplitsStep(s: string, ws: seq<string>, vs: seq<string>) returns (rest: string)
    requires ws != [] && vs != [] && IsWord(ws[0]) && IsWord(vs[0])
    requires SplitsInto(s, ws) && SplitsInto(s, vs)
    ensures ws[0] == vs[0] && SplitsInto(rest, ws[1..]) && SplitsInto(rest, vs[1..])
  {
    var i := FirstSplit(s, ws);
    var j := FirstSplit(s, vs);
    SameSplit(s, ws[0], i, vs[0], j);
    rest := s[i + |ws[0]|..];
  }

  /** The split point of the first word. */
  lemma FirstSplit(s: string, ws: seq<string>) returns (i: int)
    requires ws != [] && SplitsInto(s, ws)
    ensures SplitAt(s, ws[0], i) && SplitsInto(s[i + |ws[0]|..], ws[1..])
  {
    i :| SplitAt(s, ws[0], i) && SplitsInto(s[i + |ws[0]|..], ws[1..]);
  }

  /** A text splits into no words exactly when it is all whitespace. */
  lemma SplitsBlank(s: string, ws: seq<string>)
    requires forall k :: 0 <= k < |ws| ==> IsWord(ws[k])
    requires SplitsInto(s, ws)
    ensures ws == [] <==> AllSpace(s)
  {
    if ws != [] {
      var i := FirstSplit(s, ws);
      assert s[i] == ws[0][0] by {
        assert s[i..i + |ws[0]|][0] == s[i];
      }
      assert !AllSpace(s);
    }
  }

  /** The words after the first are words. */
  lemma TailWords(ws: seq<string>)
    requires ws != [] && forall k :: 0 <= k < |ws| ==> IsWord(ws[k])
    ensures forall k :: 0 <= k < |ws[1..]| ==> IsWord(ws[1..][k])
  {
    forall k | 0 <= k < |ws[1..]| ensures IsWord(ws[1..][k]) {
      assert ws[1..][k] == ws[k + 1];
    }
  }

  /** Two words at split points of the same text are the same word at the same place. */
  lemma SameSplit(s: string, w: string, i: int, v: string, j: int)
    requires IsWord(w) && SplitAt(s, w, i) && IsWord(v) && SplitAt(s, v, j)
    ensures i == j && w == v
  {
    FirstWordAt(s, w, i);
    FirstWordAt(s, v, j);
    RunAt(s, w, i);
    RunAt(s, v, i);
    WordIsRun(s[i..], w);
    WordIsRun(s[i..], v);
    assert w == s[i..i + |w|];
  }

  /** A word at a split point starts the rest of the text and ends at its end or at
      whitespace. */
  lemma RunAt(s: string, w: string, i: int)
    requires SplitAt(s, w, i)
    ensures StartsWith(s[i..], w) && (|w| == |s[i..]| || IsSpace(s[i..][|w|]))
  {
    assert s[i..][..|w|] == s[i..i + |w|];
    if |w| < |s[i..]| {
      assert s[i..][|w|] == s[i + |w|];
    }
  }

  /** Words on both sides of a gap of whitespace are the words of the two sides. */
  lemma WordsAround(a: string, gap: string, b: string)
    requires gap != [] && AllSpace(gap)
    ensures Words(a + gap + b) == Words(a) + Words(b)
  {
    var ws, vs := Words(a), Words(b);
    WordsSplit(a);
    WordsSplit(b);
    SplitsConcat(a, ws, gap, b, vs);
    AllWords(ws, vs);
    SplitsUnique(a + gap + b, ws + vs);
  }

  /** A text that is a single word splits into just that word. */
  lemma SingleWord(w: string)
    requires IsWord(w)
    ensures Words(w) == [w]
  {
    assert w[..0] == [] && w[0..|w|] == w && w[|w|..] == [];
    assert SplitAt(w, w, 0);
    SplitsConsOf(w, 0, w, [], []);
    SplitsUnique(w, [w]);
  }

  /** Two words with a space between them split into those two words. */
  lemma TwoWords(a: string, b: string)
    requires IsWord(a) && IsWord(b)
    ensures Words(a + " " + b) == [a, b]
  {
    assert AllSpace(" ");
    WordsAround(a, " ", b);
    SingleWord(a);
    SingleWord(b);
  }

  /** Words followed by words are words. */
  lemma AllWords(ws: seq<string>, vs: seq<string>)
    requires forall k :: 0 <= k < |ws| ==> IsWord(ws[k])
    requires forall k :: 0 <= k < |vs| ==> IsWord(vs[k])
    ensures forall k :: 0 <= k < |ws + vs| ==> IsWord((ws + vs)[k])
  {
    forall k | 0 <= k < |ws + vs| ensures IsWord((ws + vs)[k]) {
      if k < |ws| {
        assert (ws + vs)[k] == ws[k];
      } else {
        assert (ws + vs)[k] == vs[k - |ws|];
      }
    }
  }

  /** Whitespace followed by whitespace is whitespace. */
  lemma AllSpaceConcat(p: string, q: string)
    requires AllSpace(p) && AllSpace(q)
    ensures AllSpace(p + q)
  {
    forall k | 0 <= k < |p + q| ensures IsSpace((p + q)[k]) {
      if k < |p| {
        assert (p + q)[k] == p[k];
      } else {
        assert (p + q)[k] == q[k - |p|];
      }
    }
  }

  /** Joining two texts with whitespace between them joins their splittings. */
  lemma {:induction false} SplitsConcat(a: string, ws: seq<string>, gap: string, b: string, vs: seq<string>)
    requires gap != [] && AllSpace(gap)
    requires SplitsInto(a, ws) && SplitsInto(b, vs)
    ensures SplitsInto(a + gap + b, ws + vs)
    decreases |ws|
  {
    if ws == [] {
      AllSpaceConcat(a, gap);
      SplitsPad(a + gap, b, vs);
      assert ws + vs == vs;
    } else {
      var i := FirstSplit(a, ws);
      SplitsConcat(a[i + |ws[0]|..], ws[1..], gap, b, vs);
      ConcatStep(a, ws, gap, b, vs, i);
    }
  }

  /** The first word of the left text stays first, and the rest follows by induction. */
  lemma ConcatStep(a: string, ws: seq<string>, gap: string, b: string, vs: seq<string>, i: int)
    requires ws != [] && gap != [] && AllSpace(gap) && SplitAt(a, ws[0], i)
    requires SplitsInto(a[i + |ws[0]|..] + gap + b, ws[1..] + vs)
    ensures SplitsInto(a + gap + b, ws + vs)
  {
    RestAfter(a, gap, b, i + |ws[0]|);
    SplitAtJoin(a, gap, b, ws[0], i);
    ConsOf(ws, vs);
    SplitsCons(a + gap + b, i, ws + vs);
  }

  lemma RestAfter(a: string, gap: string, b: string, k: nat)
    requires k <= |a|
    ensures (a + gap + b)[k..] == a[k..] + gap + b
  {
    AppendAssoc(a, gap, b);
    DropConcat(a, gap + b, k);
    AppendAssoc(a[k..], gap, b);
  }

  /** A split point of `a` stays one when a gap of whitespace and more text follow. */
  lemma SplitAtJoin(a: string, gap: string, b: string, w: string, i: int)
    requires gap != [] && AllSpace(gap) && SplitAt(a, w, i)
    ensures SplitAt(a + gap + b, w, i)
  {
    AppendAssoc(a, gap, b);
    SplitAtConcat(a, gap + b, w, i);
  }

  lemma ConsOf<T>(ws: seq<T>, vs: seq<T>)
    requires ws != []
    ensures (ws + vs)[0] == ws[0] && (ws + vs)[1..] == ws[1..] + vs
  {
  }

  /** A split point of `a` stays one when text starting with whitespace follows. */
  lemma SplitAtConcat(a: string, c: string, w: string, i: int)
    requires SplitAt(a, w, i) && c != [] && IsSpace(c[0])
    ensures SplitAt(a + c, w, i)
  {
    var t := a + c;
    assert t[i..i + |w|] == a[i..i + |w|];
    assert t[..i] == a[..i];
    if i + |w| < |a| {
      assert t[i + |w|] == a[i + |w|];
    } else {
      assert t[i + |w|] == c[0];
    }
  }

  /** Dropping a prefix of the left part of a concatenation. */
  lemma DropConcat<T>(a: seq<T>, c: seq<T>, k: nat)
    requires k <= |a|
    ensures (a + c)[k..] == a[k..] + c
  {
  }

  /** Whitespace in front of a text keeps its splitting. */
  lemma SplitsPad(p: string, b: string, vs: seq<string>)
    requires AllSpace(p) && SplitsInto(b, vs)
    ensures SplitsInto(p + b, vs)
  {
    if vs == [] {
      AllSpaceConcat(p, b);
    } else {
      var i := FirstSplit(b, vs);
      PadCons(p, b, vs[0], i, vs[1..]);
      assert [vs[0]] + vs[1..] == vs;
    }
  }

  /** Whitespace in front of a first word and the words after it. */
  lemma PadCons(p: string, b: string, w: string, i: int, rest: seq<string>)
    requires AllSpace(p) && SplitAt(b, w, i) && SplitsInto(b[i + |w|..], rest)
    ensures SplitsInto(p + b, [w] + rest)
  {
    PadSplitAt(p, b, w, i);
    SplitsConsOf(p + b, |p| + i, w, b[i + |w|..], rest);
  }

  /** A split point of `b` moves right by the whitespace put in front of it. */
  lemma PadSplitAt(p: string, b: string, w: string, i: int)
    requires AllSpace(p) && SplitAt(b, w, i)
    ensures SplitAt(p + b, w, |p| + i) && (p + b)[|p| + i + |w|..] == b[i + |w|..]
  {
    var t := p + b;
    var j := |p| + i;
    assert t[j..j + |w|] == b[i..i + |w|];
    assert t[..j] == p + b[..i];
    AllSpaceConcat(p, b[..i]);
    if j + |w| < |t| {
      assert t[j + |w|] == b[i + |w|];
    }
  }

  /** `sep.join(parts)` */
  function Join(sep: string, parts: seq<string>): string
    decreases |parts|
  {
    if parts == [] then ""
    else if |parts| == 1 then parts[0]
    else parts[0] + sep + Join(sep, parts[1..])
  }

  /** `s.split(sep)` for a single-character separator: always at least one part. */
  function Split(s: string, sep: char): (parts: seq<string>)
    ensures |parts| >= 1
    decreases |s|
  {
    if s == [] then [""]
    else
      var rest := Split(s[1..], sep);
      if s[0] == sep then [""] + rest
      else [[s[0]] + rest[0]] + rest[1..]
  }

  /** No part holds the separator. */
  lemma {:induction false} SplitParts(s: string, sep: char)
    ensures forall k :: 0 <= k < |Split(s, sep)| ==> sep !in Split(s, sep)[k]
    decreases |s|
  {
    if s != [] {
      SplitParts(s[1..], sep);
      var rest := Split(s[1..], sep);
      if s[0] != sep {
        assert sep !in [s[0]] + rest[0];
      }
    }
  }

  /** Splitting and joining with the same separator gives the text back. */
  lemma {:induction false} SplitJoin(s: string, sep: char)
    ensures Join([sep], Split(s, sep)) == s
    decreases |s|
  {
    if s != [] {
      var rest := Split(s[1..], sep);
      SplitJoin(s[1..], sep);
      if s[0] == sep {
        assert ([""] + rest)[1..] == rest;
      } else {
        var parts := [[s[0]] + rest[0]] + rest[1..];
        if |rest| > 1 {
          assert parts[1..] == rest[1..];
          var j := Join([sep], rest[1..]);
          calc {
            Join([sep], parts);
            (([s[0]] + rest[0]) + [sep]) + j;
            { AppendAssoc([s[0]], rest[0], [sep]); }
            ([s[0]] + (rest[0] + [sep])) + j;
            { AppendAssoc([s[0]], rest[0] + [sep], j); }
            [s[0]] + ((rest[0] + [sep]) + j);
            [s[0]] + Join([sep], rest);
            s;
          }
        }
      }
    }
  }

  /** `s[:n]`: the first `n` elements, or all of `s` when it is shorter. */
  function Take<T>(s: seq<T>, n: nat): (r: seq<T>)
    ensures |r| <= n && |r| <= |s| && r == s[..|r|]
    ensures |s| <= n ==> r == s
    ensures n <= |s| ==> |r| == n
  {
    if |s| <= n then s else s[..n]
  }

  /** `c * n` */
  function Repeat(c: char, n: nat): (r: string)
    ensures |r| == n && forall i :: 0 <= i < n ==> r[i] == c
  {
    seq(n, _ => c)
  }

  function DigitChar(d: nat): char
    requires d < 10
  {
    ('0' as int + d) as char
  }

  function NatToString(n: nat): (r: string)
    ensures r != [] && forall i :: 0 <= i < |r| ==> IsDigit(r[i])
  {
    if n < 10 then [DigitChar(n)] else NatToString(n / 10) + [DigitChar(n % 10)]
  }

  /** `str(n)` for an `int` */
  function IntToString(n: int): string {
    if n < 0 then "-" + NatToString(-n) else NatToString(n)
  }
}
