/** The (article, variation) rotation pointer of the weekly workflow and the calendar
    arithmetic of the pipeline preview, both from mcp_tweet_processor_workflow.py. */
module Rotation {
  import opened Strings

  /** Tweets composed per article; the pointer's variation runs over 1..Variations. */
  const Variations: int := 4

  datatype Pointer = Pointer(article: int, variation: int)

  /** The pointer invariant the rotation keeps over a list of `articleCount` articles. */
  predicate InRange(p: Pointer, articleCount: int) {
    1 <= p.article <= articleCount && 1 <= p.variation <= Variations
  }

  /** The move to the next unit of work after a confirmed post: the next variation of the
      same article, or variation 1 of the next article, wrapping to article 1 after the last. */
  function Advance(p: Pointer, articleCount: int): (q: Pointer)
    ensures InRange(p, articleCount) ==> InRange(q, articleCount)
    ensures p.variation < Variations ==> q.article == p.article
  {
    if p.variation < Variations then Pointer(p.article, p.variation + 1)
    else Pointer(if p.article < articleCount then p.article + 1 else 1, 1)
  }

  /** `k` advances in a row. */
  function AdvanceTimes(p: Pointer, articleCount: int, k: nat): Pointer
    decreases k
  {
    if k == 0 then p else Advance(AdvanceTimes(p, articleCount, k - 1), articleCount)
  }

  /** The position of a pointer in the rotation order; 0 .. 4 * articleCount - 1 when in range. */
  function Index(p: Pointer): int {
    (p.article - 1) * 4 + (p.variation - 1)
  }

  lemma IndexBounds(p: Pointer, n: int)
    requires InRange(p, n)
    ensures 0 <= Index(p) < 4 * n
  {
  }

  /** Index is one-to-one on in-range pointers. */
  lemma IndexInjective(p: Pointer, q: Pointer, n: int)
    requires InRange(p, n) && InRange(q, n) && Index(p) == Index(q)
    ensures p == q
  {
  }

  /** Advances compose: `a + b` advances are `a` advances followed by `b` more. */
  lemma {:induction false} AdvanceTimesAdd(p: Pointer, n: int, a: nat, b: nat)
    ensures AdvanceTimes(p, n, a + b) == AdvanceTimes(AdvanceTimes(p, n, a), n, b)
    decreases b
  {
    if b > 0 {
      AdvanceTimesAdd(p, n, a, b - 1);
    }
  }

  /** `k` advances, cut into `a` advances and `b` more. */
  lemma AdvanceTimesSplit(p: Pointer, n: int, a: nat, b: nat, k: nat)
    requires a + b == k
    ensures AdvanceTimes(p, n, k) == AdvanceTimes(AdvanceTimes(p, n, a), n, b)
  {
    AdvanceTimesAdd(p, n, a, b);
  }

  /** Before the end of the cycle each advance moves one place forward in the rotation order. */
  lemma {:induction false} AdvanceTimesIndex(p: Pointer, n: int, k: nat)
    requires InRange(p, n) && Index(p) + k < 4 * n
    ensures InRange(AdvanceTimes(p, n, k), n)
    ensures Index(AdvanceTimes(p, n, k)) == Index(p) + k
    decreases k
  {
    if k > 0 {
      AdvanceTimesIndex(p, n, k - 1);
    }
  }

  /** From the last pair (article `n`, variation 4) an advance wraps to the first pair. */
  lemma AdvanceWraps(p: Pointer, n: int)
    requires InRange(p, n) && Index(p) == 4 * n - 1
    ensures Advance(p, n) == Pointer(1, 1)
  {
  }

  /** `4 * n - Index(p)` advances reach the first pair (1, 1) from any in-range pointer. */
  lemma ToFirst(p: Pointer, n: int)
    requires InRange(p, n)
    ensures AdvanceTimes(p, n, 4 * n - Index(p)) == Pointer(1, 1)
  {
    var i := Index(p);
    IndexBounds(p, n);
    AdvanceTimesIndex(p, n, 4 * n - 1 - i);
    AdvanceWraps(AdvanceTimes(p, n, 4 * n - 1 - i), n);
  }

  /** The in-range pointer `k` advances past (1, 1) has index `k`, for `k` within one cycle. */
  lemma FromFirst(n: int, k: nat)
    requires 1 <= n && k < 4 * n
    ensures InRange(AdvanceTimes(Pointer(1, 1), n, k), n)
    ensures Index(AdvanceTimes(Pointer(1, 1), n, k)) == k
  {
    AdvanceTimesIndex(Pointer(1, 1), n, k);
  }

  /** Periodicity: 4 * articleCount advances bring every in-range pointer back to itself. */
  lemma FullCycle(p: Pointer, n: int)
    requires InRange(p, n)
    ensures AdvanceTimes(p, n, 4 * n) == p
  {
    var i := Index(p);
    IndexBounds(p, n);
    AdvanceTimesSplit(p, n, 4 * n - i, i, 4 * n);
    ToFirst(p, n);
    FromFirst(n, i);
    IndexInjective(AdvanceTimes(Pointer(1, 1), n, i), p, n);
  }

  /** No shorter positive number of advances returns to the start: the period is exactly
      4 * articleCount. */
  lemma NoShorterCycle(p: Pointer, n: int, k: nat)
    requires InRange(p, n) && 0 < k < 4 * n
    ensures AdvanceTimes(p, n, k) != p
  {
    var i := Index(p);
    IndexBounds(p, n);
    if i + k < 4 * n {
      AdvanceTimesIndex(p, n, k);
    } else {
      AdvanceTimesAdd(p, n, 4 * n - i, k - (4 * n - i));
      ToFirst(p, n);
      FromFirst(n, k - (4 * n - i));
    }
  }

  /** Every in-range pair is reached from any in-range start within one cycle. */
  lemma Reaches(p: Pointer, q: Pointer, n: int) returns (k: nat)
    requires InRange(p, n) && InRange(q, n)
    ensures k < 4 * n && AdvanceTimes(p, n, k) == q
  {
    var i, j := Index(p), Index(q);
    IndexBounds(p, n);
    IndexBounds(q, n);
    if i <= j {
      k := j - i;
      AdvanceTimesIndex(p, n, k);
    } else {
      var a: nat := 4 * n - i;
      k := a + j;
      AdvanceTimesAdd(p, n, a, j);
      ToFirst(p, n);
      FromFirst(n, j);
      assert AdvanceTimes(p, n, k) == AdvanceTimes(Pointer(1, 1), n, j);
    }
    IndexInjective(AdvanceTimes(p, n, k), q, n);
  }

  // ----- calendar arithmetic of the preview -----

  /** The names `_day_to_number` knows, at their weekday numbers (0 = Monday). */
  const DayNames: seq<string> :=
    ["monday", "tuesday", "wednesday", "thursday", "friday", "saturday", "sunday"]

  /** Weekday number of a day name, ignoring case; unknown names give 3 (Thursday). */
  function DayToNumber(dayName: string): (d: int)
    ensures 0 <= d < 7
    ensures Lower(dayName) in DayNames ==> DayNames[d] == Lower(dayName)
    ensures Lower(dayName) !in DayNames ==> d == 3
  {
    var key := Lower(dayName);
    if key == DayNames[0] then 0
    else if key == DayNames[1] then 1
    else if key == DayNames[2] then 2
    else if key == DayNames[3] then 3
    else if key == DayNames[4] then 4
    else if key == DayNames[5] then 5
    else if key == DayNames[6] then 6
    else 3
  }

  lemma LowerIdempotent(s: string)
    ensures Lower(Lower(s)) == Lower(s)
  {
  }

  /** Case does not matter: a name and its lower-case spelling give the same number. */
  lemma DayToNumberIgnoresCase(dayName: string)
    ensures DayToNumber(Lower(dayName)) == DayToNumber(dayName)
  {
    LowerIdempotent(dayName);
  }

  const MicrosPerMinute: int := 60_000_000

  /** Days from today to the next posting day. `target` and `weekday` are weekday numbers,
      `nowTime` the time of day in microseconds, `postingMinutes` the posting time of day in
      minutes. Python's `%` by 7 is never negative, as Dafny's is. */
  function DaysAhead(target: int, weekday: int, nowTime: int, postingMinutes: int): (d: int)
    ensures 0 <= d <= 7
    ensures (weekday + d) % 7 == target % 7
    ensures d == 7 <==> (target - weekday) % 7 == 0 && nowTime > postingMinutes * MicrosPerMinute
  {
    var base := (target - weekday) % 7;
    if base == 0 && nowTime > postingMinutes * MicrosPerMinute then 7 else base
  }

  /** The offset is the first day with the target weekday, skipping today only when its
      posting time has already passed. */
  lemma DaysAheadIsNext(target: int, weekday: int, nowTime: int, postingMinutes: int, e: int)
    requires 0 <= e < DaysAhead(target, weekday, nowTime, postingMinutes)
    ensures (weekday + e) % 7 != target % 7 || (e == 0 && nowTime > postingMinutes * MicrosPerMinute)
  {
  }

  /** The posting day of preview week `week` (0-based), as a day number. */
  function PostDay(today: int, daysAhead: int, week: int): int {
    today + daysAhead + 7 * week
  }
}
