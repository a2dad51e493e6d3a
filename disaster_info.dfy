/**
 * The simulated news feed: a cursor in the run context steps cyclically
 * through a fixed table of news items, some of which are empty slots.
 */
module DisasterInfo {
  import opened Wrappers
  import opened RunContext

  const NoNewsMessage := "No new development on the situation found in the past 15 minutes."

  /**
   * The cursor's next position, `(i + 1) % n` as Python computes it: Python's `%`
   * takes the sign of the divisor, which for a positive divisor is the same as
   * the remainder used here.
   */
  function NextNewsIndex(i: int, n: int): (j: int)
    requires n > 0
    ensures 0 <= j < n
    ensures -1 <= i < n - 1 ==> j == i + 1
    ensures i == n - 1 ==> j == 0
  {
    if -1 <= i < n - 1 then
      RemainderUnique(i + 1, n, 0, i + 1);
      (i + 1) % n
    else if i == n - 1 then
      RemainderUnique(i + 1, n, 1, 0);
      (i + 1) % n
    else
      (i + 1) % n
  }

  /** The text reported for a slot: the item itself, or the fixed message for an empty slot. */
  function NewsAt(news: seq<Option<string>>, k: int): (s: string)
    requires 0 <= k < |news|
    ensures news[k].Some? && news[k].value != "" ==> s == news[k].value
    ensures news[k] == None || news[k] == Some("") ==> s == NoNewsMessage
    ensures s != ""
  {
    match news[k]
    case Some(item) => if item != "" then item else NoNewsMessage
    case None => NoNewsMessage
  }

  /**
   * `fake_news_feed_tool`: advances the cursor and reports the news at its new
   * position. Only the cursor changes; the table is a value and cannot.
   */
  method FakeNewsFeed(context: AgentContext, news: seq<Option<string>>) returns (s: string)
    requires |news| > 0
    modifies context`iNews
    ensures context.iNews == NextNewsIndex(old(context.iNews), |news|)
    ensures 0 <= context.iNews < |news|
    ensures s == NewsAt(news, context.iNews)
  {
    context.iNews := (context.iNews + 1) % |news|;
    s := NewsAt(news, context.iNews);
  }

  /** The cursor after `k` calls. */
  function CursorAfter(i: int, k: nat, n: int): int
    requires n > 0
  {
    if k == 0 then i else NextNewsIndex(CursorAfter(i, k - 1, n), n)
  }

  /** `d` copies of a positive `n` add up to at least `n`. */
  lemma MulAtLeast(d: int, n: int)
    requires d >= 1 && n > 0
    ensures d * n >= n
  {
  }

  /** The remainder is the unique `r` in `[0, n)` with `a == q * n + r`. */
  lemma RemainderUnique(a: int, n: int, q: int, r: int)
    requires n > 0 && 0 <= r < n && a == q * n + r
    ensures a % n == r
  {
    var q', r' := a / n, a % n;
    assert a == q' * n + r';
    assert (q - q') * n == r' - r by {
      assert (q - q') * n == q * n - q' * n;
    }
    if q > q' {
      MulAtLeast(q - q', n);
    } else if q < q' {
      MulAtLeast(q' - q, n);
    }
  }

  /** One more step from a reduced position is the same as reducing one more step. */
  lemma StepOfRemainder(a: int, n: int)
    requires n > 0
    ensures (a % n + 1) % n == (a + 1) % n
  {
    var q, r := a / n, a % n;
    assert a == q * n + r;
    if r + 1 < n {
      RemainderUnique(a + 1, n, q, r + 1);
      RemainderUnique(r + 1, n, 0, r + 1);
    } else {
      assert a + 1 == (q + 1) * n + 0;
      RemainderUnique(a + 1, n, q + 1, 0);
      RemainderUnique(r + 1, n, 1, 0);
    }
  }

  /** From a position inside the table, `k` calls leave the cursor at `(i + k) % n`. */
  lemma {:induction false} CursorAfterIsShift(i: int, k: nat, n: int)
    requires n > 0 && 0 <= i < n
    ensures CursorAfter(i, k, n) == (i + k) % n
  {
    if k > 0 {
      var previous := CursorAfter(i, k - 1, n);
      CursorAfterIsShift(i, k - 1, n);
      assert previous == (i + k - 1) % n;
      assert CursorAfter(i, k, n) == NextNewsIndex(previous, n) == (previous + 1) % n;
      StepOfRemainder(i + k - 1, n);
    }
  }

  /** After as many calls as the table has entries, the cursor is back where it started. */
  lemma CursorCycles(i: int, n: int)
    requires n > 0 && 0 <= i < n
    ensures CursorAfter(i, n, n) == i
  {
    CursorAfterIsShift(i, n, n);
    RemainderUnique(i + n, n, 1, i);
  }
}
