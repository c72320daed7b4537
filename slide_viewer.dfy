/**
 * The slide viewer (`PowerPointSlideViewer`): one slide per catalog entry, a
 * clamped current-slide index, and the effect that points the shared atoms
 * at the current slide's book whenever the slide changes.
 */
module SlideViewer {
  import opened Wrappers
  import Library
  import Bookmark

  /** `goToNext`: one slide on, unless already on the last. */
  function NextSlide(current: int, total: int): (r: int)
    ensures current < total - 1 ==> r == current + 1
    ensures current >= total - 1 ==> r == current
  {
    if current < total - 1 then current + 1 else current
  }

  /** `goToPrevious`: one slide back, unless already on the first. */
  function PrevSlide(current: int): (r: int)
    ensures current > 0 ==> r == current - 1
    ensures current <= 0 ==> r == current
  {
    if current > 0 then current - 1 else current
  }

  /** `goToSlide(index)`: jump there when it names a slide, otherwise stay. */
  function GoToSlide(current: int, index: int, total: int): (r: int)
    ensures 0 <= index < total ==> r == index
    ensures !(0 <= index < total) ==> r == current
  {
    if index >= 0 && index < total then index else current
  }

  /** What the key handler does with a key name: a command, or nothing. */
  datatype Command = Previous | Next | Jump(index: int)

  /** Left arrow goes back, right arrow goes on, every other key is ignored. */
  function KeyCommand(key: string): (c: Option<Command>)
    ensures c.Some? <==> key == "ArrowLeft" || key == "ArrowRight"
    ensures c.Some? ==> !c.value.Jump?
  {
    if key == "ArrowLeft" then Some(Previous)
    else if key == "ArrowRight" then Some(Next)
    else None
  }

  /** The current slide after one command. */
  function Apply(current: int, c: Command, total: int): int
  {
    match c
    case Previous => PrevSlide(current)
    case Next => NextSlide(current, total)
    case Jump(index) => GoToSlide(current, index, total)
  }

  /** The current slide after a sequence of commands. */
  function ApplyAll(current: int, cs: seq<Command>, total: int): int
    decreases |cs|
  {
    if cs == [] then current else ApplyAll(Apply(current, cs[0], total), cs[1..], total)
  }

  /** The key mapping, checked on the two arrows and one other key. */
  lemma KeyBindings()
    ensures KeyCommand("ArrowLeft") == Some(Previous)
    ensures KeyCommand("ArrowRight") == Some(Next)
    ensures KeyCommand("ArrowUp") == None
  {
  }

  /** Only the two arrow keys do anything. */
  lemma OnlyArrowsAct(key: string)
    requires key != "ArrowLeft" && key != "ArrowRight"
    ensures KeyCommand(key) == None
  {
  }

  /** Every command keeps a valid slide index valid. */
  lemma ApplyKeepsRange(current: int, c: Command, total: int)
    requires 0 <= current < total
    ensures 0 <= Apply(current, c, total) < total
  {
  }

  /** Starting on any valid slide (the viewer starts on 0), no sequence of commands leaves the range. */
  lemma {:induction false} ApplyAllKeepsRange(current: int, cs: seq<Command>, total: int)
    requires 0 <= current < total
    ensures 0 <= ApplyAll(current, cs, total) < total
    decreases |cs|
  {
    if cs != [] {
      ApplyKeepsRange(current, cs[0], total);
      ApplyAllKeepsRange(Apply(current, cs[0], total), cs[1..], total);
    }
  }

  /** Next then previous returns to a slide that is not the last. */
  lemma NextThenPrevious(current: int, total: int)
    requires 0 <= current < total - 1
    ensures PrevSlide(NextSlide(current, total)) == current
  {
  }

  /** The number of slides, `BOOK_LIBRARY.length`. */
  function TotalSlides(): nat
  {
    |Library.BookLibrary()|
  }

  /** The viewer's own state and the shared atoms its effect writes. */
  class Viewer {
    var currentSlide: int
    const store: Library.Store

    /** The current slide points at a catalog entry. */
    predicate Valid()
      reads this
    {
      0 <= currentSlide < TotalSlides()
    }

    /** The atoms show the current slide's book from its first page with the bookmark's front face. */
    predicate Synced()
      reads this, store
    {
      store.bookIndex == currentSlide && store.page == 0 && store.bookmarkFace == 0
    }

    /** The viewer starts on slide 0; the mount effect then syncs the atoms. */
    constructor (store: Library.Store)
      modifies store
      ensures this.store == store
      ensures currentSlide == 0 && Valid() && Synced()
    {
      this.store := store;
      currentSlide := 0;
      new;
      Sync();
    }

    /** The sync effect: book index, page and bookmark face follow the slide, whatever they were. */
    method Sync()
      modifies store`bookIndex, store`page, store`bookmarkFace
      ensures Synced()
    {
      store.bookIndex := currentSlide;
      store.page := 0;
      store.bookmarkFace := 0;
    }

    /** Set the slide; the effect runs only when the value actually changed. */
    method SetCurrentSlide(s: int)
      modifies this`currentSlide, store`bookIndex, store`page, store`bookmarkFace
      ensures currentSlide == s
      ensures s != old(currentSlide) ==> Synced()
      ensures s == old(currentSlide) ==> unchanged(store)
    {
      if s != currentSlide {
        currentSlide := s;
        Sync();
      }
    }

    method GoToNext()
      requires Valid()
      modifies this`currentSlide, store`bookIndex, store`page, store`bookmarkFace
      ensures Valid()
      ensures currentSlide == NextSlide(old(currentSlide), TotalSlides())
      ensures currentSlide != old(currentSlide) ==> Synced()
      ensures currentSlide == old(currentSlide) ==> unchanged(store)
    {
      if currentSlide < TotalSlides() - 1 {
        SetCurrentSlide(currentSlide + 1);
      }
    }

    method GoToPrevious()
      requires Valid()
      modifies this`currentSlide, store`bookIndex, store`page, store`bookmarkFace
      ensures Valid()
      ensures currentSlide == PrevSlide(old(currentSlide))
      ensures currentSlide != old(currentSlide) ==> Synced()
      ensures currentSlide == old(currentSlide) ==> unchanged(store)
    {
      if currentSlide > 0 {
        SetCurrentSlide(currentSlide - 1);
      }
    }

    method GoTo(index: int)
      requires Valid()
      modifies this`currentSlide, store`bookIndex, store`page, store`bookmarkFace
      ensures Valid()
      ensures currentSlide == GoToSlide(old(currentSlide), index, TotalSlides())
      ensures currentSlide != old(currentSlide) ==> Synced()
      ensures currentSlide == old(currentSlide) ==> unchanged(store)
    {
      if index >= 0 && index < TotalSlides() {
        SetCurrentSlide(index);
      }
    }

    /** The window's key handler. */
    method KeyDown(key: string)
      requires Valid()
      modifies this`currentSlide, store`bookIndex, store`page, store`bookmarkFace
      ensures Valid()
      ensures currentSlide == (match KeyCommand(key)
                               case None => old(currentSlide)
                               case Some(c) => Apply(old(currentSlide), c, TotalSlides()))
      ensures currentSlide != old(currentSlide) ==> Synced()
      ensures currentSlide == old(currentSlide) ==> unchanged(store)
    {
      if key == "ArrowLeft" {
        GoToPrevious();
      } else if key == "ArrowRight" {
        GoToNext();
      }
    }

    /** The bookmark button flips the shared face atom, as a click on the bookmark does. */
    method ToggleBookmarkFace()
      modifies store`bookmarkFace
      ensures store.bookmarkFace == Bookmark.ToggledFace(old(store.bookmarkFace))
    {
      store.bookmarkFace := if store.bookmarkFace == 0 then 1 else 0;
    }
  }
}
