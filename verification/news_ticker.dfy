/**
 * The rotating headline of components/features/news/NewsTicker.tsx: one
 * headline at a time, the index advancing cyclically each time the scroll
 * animation ends or repeats.
 */
module NewsTicker {

  datatype NewsItem = NewsItem(id: int, text: string)

  /** What the component renders: nothing, one headline, or the render throws
      because the index points past the list (`newsItems[currentIndex].text`
      on a missing item). */
  datatype Rendered = Nothing | Headline(text: string) | Throws

  /** The render for a list and an index. */
  function Display(items: seq<NewsItem>, index: nat): (r: Rendered)
    ensures r == Nothing <==> |items| == 0
    ensures r.Headline? <==> index < |items|
    ensures r.Headline? ==> r.text == items[index].text
  {
    if |items| == 0 then Nothing
    else if index < |items| then Headline(items[index].text)
    else Throws
  }

  /** The index after one animation event, from an index of the list. */
  function Advance(i: nat, n: nat): (r: nat)
    requires i < n
    ensures r < n
    ensures r == if i + 1 < n then i + 1 else 0
  {
    (i + 1) % n
  }

  /** The index after `k` animation events. */
  function AdvanceTimes(i: nat, n: nat, k: nat): (r: nat)
    requires i < n
    ensures r < n
  {
    if k == 0 then i else Advance(AdvanceTimes(i, n, k - 1), n)
  }

  /** A remainder is fixed by any quotient-remainder split. */
  lemma ModUnique(a: nat, n: nat, q: int, r: int)
    requires 0 <= r < n && a == q * n + r
    ensures a % n == r
  {
    var q', r' := a / n, a % n;
    assert (q - q') * n == r' - r;
    if q - q' >= 1 {
      MulAtLeast(q - q', n);
    } else if q' - q >= 1 {
      MulAtLeast(q' - q, n);
    }
  }

  lemma MulAtLeast(x: int, n: nat)
    requires x >= 1
    ensures x * n >= n
  {
    assert x * n == (x - 1) * n + n;
  }

  /** The remainder of a successor steps like the ticker does. */
  lemma ModSucc(a: nat, n: nat)
    requires n > 0
    ensures (a + 1) % n == Advance(a % n, n)
  {
    var q, r := a / n, a % n;
    if r + 1 < n {
      ModUnique(a + 1, n, q, r + 1);
    } else {
      ModUnique(a + 1, n, q + 1, 0);
    }
  }

  /** `k` events move an index of the list `k` places on, cyclically. */
  lemma {:induction false} AdvanceTimesIsShift(i: nat, n: nat, k: nat)
    requires i < n
    ensures AdvanceTimes(i, n, k) == (i + k) % n
  {
    if k > 0 {
      AdvanceTimesIsShift(i, n, k - 1);
      ModSucc(i + k - 1, n);
    }
  }

  /** After exactly as many events as there are headlines, the ticker is back
      where it started, and no earlier event brings it back. */
  lemma FullCycle(i: nat, n: nat)
    requires i < n
    ensures AdvanceTimes(i, n, n) == i
    ensures forall k :: 0 < k < n ==> AdvanceTimes(i, n, k) != i
  {
    AdvanceTimesIsShift(i, n, n);
    ModUnique(i + n, n, 1, i);
    forall k | 0 < k < n ensures AdvanceTimes(i, n, k) != i {
      AdvanceTimesIsShift(i, n, k);
      if i + k < n {
        ModUnique(i + k, n, 0, i + k);
      } else {
        ModUnique(i + k, n, 1, i + k - n);
      }
    }
  }

  /** Every headline is shown within one cycle from the first. */
  lemma EveryHeadlineShown(items: seq<NewsItem>, j: nat)
    requires j < |items|
    ensures Display(items, AdvanceTimes(0, |items|, j)) == Headline(items[j].text)
  {
    AdvanceTimesIsShift(0, |items|, j);
    ModUnique(j, |items|, 0, j);
  }

  /** The index is never re-clamped: a list that shrinks under the index
      makes the render throw. */
  lemma ShrunkListThrows(items: seq<NewsItem>, index: nat)
    requires 0 < |items| <= index
    ensures Display(items, index) == Throws
  {
  }

  /** The component's state, with its props. */
  class Ticker {
    var newsItems: seq<NewsItem>
    var currentIndex: nat

    constructor(items: seq<NewsItem>)
      ensures newsItems == items && currentIndex == 0
    {
      newsItems := items;
      currentIndex := 0;
    }

    /** What the component renders now. */
    function View(): Rendered
      reads this
    {
      Display(newsItems, currentIndex)
    }

    /** The parent passes a new list; the index is kept as it is. */
    method SetItems(items: seq<NewsItem>)
      modifies this
      ensures newsItems == items && currentIndex == old(currentIndex)
    {
      newsItems := items;
    }

    /** `handleAnimationEnd`, which only exists while a headline is rendered. */
    method HandleAnimationEnd()
      requires View().Headline?
      modifies this
      ensures newsItems == old(newsItems)
      ensures currentIndex == Advance(old(currentIndex), |newsItems|)
      ensures View().Headline?
    {
      currentIndex := (currentIndex + 1) % |newsItems|;
    }
  }

  /** A ticker created with a fixed non-empty list shows a headline after any
      number of animation events, and its index is the shifted start. */
  method RunTicker(items: seq<NewsItem>, events: nat) returns (t: Ticker)
    requires |items| > 0
    ensures t.newsItems == items
    ensures t.currentIndex == events % |items|
    ensures t.View() == Headline(items[events % |items|].text)
  {
    t := new Ticker(items);
    var k := 0;
    while k < events
      invariant 0 <= k <= events
      invariant t.newsItems == items
      invariant t.currentIndex == AdvanceTimes(0, |items|, k)
      invariant t.currentIndex < |items|
    {
      t.HandleAnimationEnd();
      k := k + 1;
    }
    AdvanceTimesIsShift(0, |items|, events);
  }
}
