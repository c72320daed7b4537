/**
 * The book's overlay (the `UI` component): the previous/next-book switch,
 * which wraps around the catalog and resets the page, and the one-shot
 * "switching book" flag that the page-change effect consumes.
 */
module BookUI {
  import opened JsMath
  import Library

  /** `(bookIndex + 1) % n`, with JavaScript's remainder. */
  function NextBookIndex(bookIndex: int, n: int): (r: int)
    requires n > 0
    ensures bookIndex >= -1 ==> 0 <= r < n
  {
    Rem(bookIndex + 1, n)
  }

  /** `(bookIndex - 1 + n) % n`, with JavaScript's remainder. */
  function PrevBookIndex(bookIndex: int, n: int): (r: int)
    requires n > 0
    ensures bookIndex >= 1 - n ==> 0 <= r < n
  {
    Rem(bookIndex - 1 + n, n)
  }

  /**
   * From a valid index both switches land on a valid index: the next one
   * after the last book is the first, the previous one before the first is
   * the last, and otherwise they move by one.
   */
  lemma SwitchInRange(bookIndex: int, n: int)
    requires n > 0 && 0 <= bookIndex < n
    ensures 0 <= NextBookIndex(bookIndex, n) < n
    ensures 0 <= PrevBookIndex(bookIndex, n) < n
    ensures NextBookIndex(bookIndex, n) == (if bookIndex == n - 1 then 0 else bookIndex + 1)
    ensures PrevBookIndex(bookIndex, n) == (if bookIndex == 0 then n - 1 else bookIndex - 1)
  {
    assert NextBookIndex(bookIndex, n) == (bookIndex + 1) % n;
    assert PrevBookIndex(bookIndex, n) == (bookIndex - 1 + n) % n;
    if bookIndex == n - 1 {
      assert (bookIndex + 1) % n == 0;
    } else {
      assert (bookIndex + 1) % n == bookIndex + 1;
    }
    if bookIndex != 0 {
      assert (bookIndex - 1 + n) % n == bookIndex - 1;
    } else {
      assert (bookIndex - 1 + n) % n == n - 1;
    }
  }

  /** The two switches undo each other on valid indices. */
  lemma SwitchRoundTrip(bookIndex: int, n: int)
    requires n > 0 && 0 <= bookIndex < n
    ensures PrevBookIndex(NextBookIndex(bookIndex, n), n) == bookIndex
    ensures NextBookIndex(PrevBookIndex(bookIndex, n), n) == bookIndex
  {
    SwitchInRange(bookIndex, n);
    SwitchInRange(NextBookIndex(bookIndex, n), n);
    SwitchInRange(PrevBookIndex(bookIndex, n), n);
  }

  /**
   * The overlay's state: the `isSwitchingBook` ref, the `showMarquee` prop,
   * the page value its effect last ran for, and the shared atoms.
   */
  class Switcher {
    var isSwitchingBook: bool
    var effectPage: int
    const showMarquee: bool
    const store: Library.Store

    /** The mount effect runs once for the current page; the flag starts false. */
    constructor (showMarquee: bool, store: Library.Store)
      ensures this.showMarquee == showMarquee && this.store == store
      ensures !isSwitchingBook && effectPage == store.page
    {
      this.showMarquee := showMarquee;
      this.store := store;
      isSwitchingBook := false;
      effectPage := store.page;
    }

    /** `nextBook`: raise the flag, move to the next book (wrapping) and to page 0. */
    method NextBook()
      modifies this`isSwitchingBook, store`bookIndex, store`page
      ensures isSwitchingBook
      ensures store.bookIndex == NextBookIndex(old(store.bookIndex), |Library.BookLibrary()|)
      ensures store.page == 0
    {
      isSwitchingBook := true;
      var next := Rem(store.bookIndex + 1, |Library.BookLibrary()|);
      store.bookIndex := next;
      store.page := 0;
    }

    /** `prevBook`: raise the flag, move to the previous book (wrapping) and to page 0. */
    method PrevBook()
      modifies this`isSwitchingBook, store`bookIndex, store`page
      ensures isSwitchingBook
      ensures store.bookIndex == PrevBookIndex(old(store.bookIndex), |Library.BookLibrary()|)
      ensures store.page == 0
    {
      isSwitchingBook := true;
      var next := Rem(store.bookIndex - 1 + |Library.BookLibrary()|, |Library.BookLibrary()|);
      store.bookIndex := next;
      store.page := 0;
    }

    /**
     * A render: the effect runs only when the page differs from the one it
     * last ran for. Without the marquee it then lowers a raised flag (and
     * skips the flip sound); with the marquee it leaves the flag alone. A
     * switch made while already on page 0 therefore leaves the flag raised.
     */
    method Render()
      modifies this`isSwitchingBook, this`effectPage
      ensures effectPage == store.page
      ensures isSwitchingBook == (old(isSwitchingBook) && (showMarquee || store.page == old(effectPage)))
    {
      if store.page == effectPage {
        return;
      }
      effectPage := store.page;
      if showMarquee {
        return;
      }
      if isSwitchingBook {
        isSwitchingBook := false;
        return;
      }
    }
  }
}
