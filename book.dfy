/**
 * The book (the `Book` component): the sequencer that walks the displayed
 * page one step at a time toward the requested page, and the flags every
 * panel derives from the displayed page.
 */
module Book {
  import opened Wrappers
  import opened JsMath
  import BookPage

  // ---------------------------------------------------------------- flip sequencer

  /** One run of the sequencer's updater: stop, or move one page and wait `delay` ms. */
  datatype Step = Stay | Move(next: int, delay: nat)

  /**
   * What the updater does with the requested page `page` and the displayed
   * page `cur`: nothing when they agree, otherwise one page toward `page`,
   * after which the next run waits 50 ms while more than two pages remain
   * (counted before the step) and 150 ms otherwise.
   */
  function SequencerStep(page: int, cur: int): (s: Step)
    ensures s.Stay? <==> page == cur
    ensures s.Move? ==> s.next == (if page > cur then cur + 1 else cur - 1)
    ensures s.Move? ==> Abs(page - s.next) + 1 == Abs(page - cur)
    ensures s.Move? ==> (s.delay == 50 || s.delay == 150) && (s.delay == 50 <==> Abs(page - cur) > 2)
  {
    if page == cur then Stay
    else
      var delay := if Abs(page - cur) > 2 then 50 else 150;
      if page > cur then Move(cur + 1, delay) else Move(cur - 1, delay)
  }

  /**
   * The displayed pages the sequencer goes through from `cur` until it
   * reaches `page`, both ends included.
   */
  function Trace(page: int, cur: int): (t: seq<int>)
    ensures |t| >= 1 && t[0] == cur
    decreases Abs(page - cur)
  {
    match SequencerStep(page, cur)
    case Stay => [cur]
    case Move(next, _) => [cur] + Trace(page, next)
  }

  /**
   * The walk is unit-step and monotone: it has one entry per page between
   * the two ends, the k-th is `cur` moved k pages toward `page`, and it ends
   * at `page`.
   */
  lemma {:induction false} TraceIsUnitWalk(page: int, cur: int)
    ensures var t := Trace(page, cur);
      && |t| == Abs(page - cur) + 1
      && t[|t| - 1] == page
      && forall k :: 0 <= k < |t| ==> t[k] == (if page >= cur then cur + k else cur - k)
    decreases Abs(page - cur)
  {
    if page != cur {
      var next := SequencerStep(page, cur).next;
      TraceIsUnitWalk(page, next);
      var t := Trace(page, cur);
      var rest := Trace(page, next);
      assert t == [cur] + rest;
      forall k | 0 <= k < |t|
        ensures t[k] == (if page >= cur then cur + k else cur - k)
      {
        if k > 0 {
          assert t[k] == rest[k - 1];
        }
      }
    }
  }

  /** From page 0 to page 5 the book shows every page in between. */
  lemma TraceFromCoverToFive()
    ensures Trace(5, 0) == [0, 1, 2, 3, 4, 5]
  {
    TraceIsUnitWalk(5, 0);
  }

  /**
   * The sequencer's state: the requested page the current effect was started
   * for, the displayed page, and the delay of the pending timer, if any (the
   * effect's cleanup cancels the one it last scheduled).
   */
  class FlipSequencer {
    var page: int
    var delayedPage: int
    var timer: Option<nat>

    /** A pending timer is the only way the displayed page still moves, and its delay is one of the two. */
    ghost predicate Valid()
      reads this
    {
      && (timer.None? ==> delayedPage == page)
      && (timer.Some? ==> timer.value == 50 || timer.value == 150)
    }

    /** `delayedPage` starts at the requested page; the mount effect's first run stops at once. */
    constructor (initialPage: int)
      ensures Valid()
      ensures page == initialPage && delayedPage == initialPage && timer == None
    {
      page := initialPage;
      delayedPage := initialPage;
      timer := None;
    }

    /** One run of `goToPage`: apply the updater and schedule the next run when it moved. */
    method Run()
      modifies this
      ensures page == old(page)
      ensures match SequencerStep(page, old(delayedPage))
              case Stay => delayedPage == old(delayedPage) && timer == None
              case Move(next, delay) => delayedPage == next && timer == Some(delay)
      ensures Valid()
    {
      var cur := delayedPage;
      if page == cur {
        timer := None;
        return;
      }
      var delay := if Abs(page - cur) > 2 then 50 else 150;
      timer := Some(delay);
      if page > cur {
        delayedPage := cur + 1;
      } else {
        delayedPage := cur - 1;
      }
    }

    /**
     * The requested page changes to `p`: the previous effect's pending timer
     * is cancelled and a new walk starts from the displayed page.
     */
    method SetPage(p: int)
      requires Valid()
      modifies this
      ensures Valid()
      ensures p == old(page) ==> delayedPage == old(delayedPage) && timer == old(timer) && page == p
      ensures p != old(page) ==> page == p
      ensures p != old(page) ==>
        (match SequencerStep(p, old(delayedPage))
         case Stay => delayedPage == old(delayedPage) && timer == None
         case Move(next, delay) => delayedPage == next && timer == Some(delay))
    {
      if p != page {
        timer := None;
        page := p;
        Run();
      }
    }

    /**
     * The pending timer fires (nothing happens when there is none): each
     * firing brings the displayed page one page closer, or stops the walk
     * when it has arrived.
     */
    method TimerFires()
      requires Valid()
      modifies this
      ensures Valid()
      ensures page == old(page)
      ensures old(timer).None? ==> delayedPage == old(delayedPage) && timer == None
      ensures old(timer).Some? && old(delayedPage) == page ==> delayedPage == page && timer == None
      ensures old(timer).Some? && old(delayedPage) != page ==>
              Abs(page - delayedPage) + 1 == Abs(page - old(delayedPage)) && timer.Some?
      ensures old(timer).Some? ==>
        (match SequencerStep(page, old(delayedPage))
         case Stay => delayedPage == old(delayedPage) && timer == None
         case Move(next, delay) => delayedPage == next && timer == Some(delay))
    {
      if timer.Some? {
        Run();
      }
    }
  }

  // ---------------------------------------------------------------- panel flags

  /** The props the book gives the panel at `index` of `pagesLength` while `delayedPage` is displayed. */
  function PanelPropsAt(delayedPage: int, index: int, pagesLength: int): BookPage.PanelProps
  {
    BookPage.PanelProps(
      number := index,
      page := delayedPage,
      isOpened := delayedPage > index,
      bookClosed := delayedPage == 0 || delayedPage >= pagesLength - 1,
      isCover := index == 0 || index == pagesLength - 1,
      pagesLength := pagesLength)
  }

  /** The props of every panel, in order. */
  function Panels(delayedPage: int, pagesLength: nat): (ps: seq<BookPage.PanelProps>)
    ensures |ps| == pagesLength
    ensures forall i :: 0 <= i < pagesLength ==> ps[i].number == i && ps[i].page == delayedPage
  {
    seq(pagesLength, i => PanelPropsAt(delayedPage, i, pagesLength))
  }

  /** How many of the panels are turned over. */
  function CountOpened(ps: seq<BookPage.PanelProps>): (n: nat)
    ensures n <= |ps|
  {
    if ps == [] then 0
    else CountOpened(ps[..|ps| - 1]) + (if ps[|ps| - 1].isOpened then 1 else 0)
  }

  /**
   * A panel is opened exactly when it lies before the displayed page, is a
   * cover exactly when it is the first or the last, and every panel agrees
   * that the book is closed exactly when the displayed page is the first or
   * at least the last.
   */
  lemma PanelFlags(delayedPage: int, pagesLength: nat)
    ensures var ps := Panels(delayedPage, pagesLength);
      forall i :: 0 <= i < pagesLength ==>
        && (ps[i].isOpened <==> i < delayedPage)
        && (ps[i].isCover <==> i == 0 || i == pagesLength - 1)
        && (ps[i].bookClosed <==> delayedPage == 0 || delayedPage >= pagesLength - 1)
  {
  }

  /** The first k panels hold min(k, delayedPage) opened ones. */
  lemma {:induction false} CountOpenedPrefix(delayedPage: int, pagesLength: nat, k: nat)
    requires k <= pagesLength
    ensures CountOpened(Panels(delayedPage, pagesLength)[..k]) == MaxInt(0, MinInt(k, delayedPage))
  {
    var ps := Panels(delayedPage, pagesLength);
    if k > 0 {
      CountOpenedPrefix(delayedPage, pagesLength, k - 1);
      assert ps[..k][..k - 1] == ps[..k - 1];
    }
  }

  /** While page d of the book is displayed (0 <= d <= pagesLength), exactly d panels are turned over. */
  lemma OpenedCount(delayedPage: nat, pagesLength: nat)
    requires delayedPage <= pagesLength
    ensures CountOpened(Panels(delayedPage, pagesLength)) == delayedPage
  {
    CountOpenedPrefix(delayedPage, pagesLength, pagesLength);
    assert Panels(delayedPage, pagesLength)[..pagesLength] == Panels(delayedPage, pagesLength);
  }

  // ---------------------------------------------------------------- clicks on the book

  /**
   * The click rule on the panels the book builds, for a book of at least two
   * panels showing a page in range: each case the rule distinguishes.
   */
  lemma ClickCases(delayedPage: int, number: int, pagesLength: int)
    requires pagesLength >= 2
    requires 0 <= number < pagesLength && 0 <= delayedPage < pagesLength
    ensures var r := BookPage.ClickTarget(PanelPropsAt(delayedPage, number, pagesLength));
      && (number == 0 && delayedPage == 0 ==> r == Some(1))
      && (number == pagesLength - 1 && delayedPage == pagesLength - 1 ==> r == Some(0))
      && (delayedPage < number ==> r == Some(number))
      && (delayedPage == number && 0 < number < pagesLength - 1 ==> r == Some(number + 1))
      && (delayedPage > number ==> r == Some(delayedPage - 1))
  {
  }

  /**
   * On those panels every click writes a page: one in range and different
   * from the displayed one.
   */
  lemma ClickAlwaysTurns(delayedPage: int, number: int, pagesLength: int)
    requires pagesLength >= 2
    requires 0 <= number < pagesLength && 0 <= delayedPage < pagesLength
    ensures var r := BookPage.ClickTarget(PanelPropsAt(delayedPage, number, pagesLength));
      && r.Some?
      && 0 <= r.value < pagesLength
      && r.value != delayedPage
  {
  }
}
