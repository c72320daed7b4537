/**
 * The bookmark beside the book (the `Bookmark` component): which catalog
 * entry and bookmark it shows, where its textures come from, what the next
 * book's preload asks for, the face toggle, the turn toward the shown face,
 * and the six materials of its box.
 */
module Bookmark {
  import opened Wrappers
  import opened JsMath
  import Library
  import BookUI

  // ---------------------------------------------------------------- book and bookmark choice

  /** `BOOK_LIBRARY[bookIndex] || BOOK_LIBRARY[0]`: an index that names no entry falls back to the first. */
  function SelectBook(bookIndex: int): (b: Library.Notebook)
    ensures 0 <= bookIndex < |Library.BookLibrary()| ==> b == Library.BookLibrary()[bookIndex]
    ensures !(0 <= bookIndex < |Library.BookLibrary()|) ==> b == Library.BookLibrary()[0]
  {
    var lib := Library.BookLibrary();
    if 0 <= bookIndex < |lib| then lib[bookIndex] else lib[0]
  }

  /** The bookmark used when an entry has none. */
  const DefaultBookmark: Library.BookmarkSpec := Library.BookmarkSpec("bookmark3", "bookmark2", None)

  /** `current.bookmark || { front: "bookmark3", back: "bookmark2", folder: null }`. */
  function SelectBookmark(b: Library.Notebook): (bm: Library.BookmarkSpec)
    ensures b.bookmark.Some? ==> bm == b.bookmark.value
    ensures b.bookmark.None? ==> bm == DefaultBookmark
  {
    b.bookmark.GetOr(DefaultBookmark)
  }

  // ---------------------------------------------------------------- texture paths

  /** A folder counts only when it is present and not the empty string. */
  predicate HasFolder(bm: Library.BookmarkSpec)
  {
    bm.folder.Some? && bm.folder.value != ""
  }

  /** `textures/{folder}/{name}` when the bookmark has a folder, `textures/{name}` otherwise. */
  function TextureBasePath(bm: Library.BookmarkSpec, name: string): (path: string)
    ensures HasFolder(bm) ==> path == "textures/" + bm.folder.value + "/" + name
    ensures !HasFolder(bm) ==> path == "textures/" + name
  {
    if HasFolder(bm) then "textures/" + bm.folder.value + "/" + name else "textures/" + name
  }

  /** Every path ends with the texture's name under the `textures/` root. */
  lemma BasePathShape(bm: Library.BookmarkSpec, name: string)
    ensures var path := TextureBasePath(bm, name);
      && path[..9] == "textures/"
      && |path| >= 9 + |name|
      && path[|path| - |name|..] == name
  {
  }

  /**
   * For every catalog entry the bookmark's textures are looked up in the
   * entry's own notebook folder, under the entry's bookmark texture names.
   */
  lemma CatalogBookmarkPaths(bookIndex: int)
    requires 0 <= bookIndex < |Library.BookLibrary()|
    ensures var b := Library.BookLibrary()[bookIndex];
      var bm := SelectBookmark(SelectBook(bookIndex));
      && TextureBasePath(bm, bm.front) == "textures/" + b.notebookFolder + "/" + b.bookmarkFront
      && TextureBasePath(bm, bm.back) == "textures/" + b.notebookFolder + "/" + b.bookmarkBack
  {
    Library.CatalogShape();
    assert Library.WellFormedEntry(Library.BookLibrary()[bookIndex]);
  }

  // ---------------------------------------------------------------- next-book preload

  /**
   * The base paths preloaded for the book after `bookIndex` (index
   * `(bookIndex + 1) % length`): nothing unless that entry exists and its
   * bookmark has a folder; then its front and back names, each when not empty.
   */
  function PreloadPaths(bookIndex: int): (paths: seq<string>)
    ensures |paths| <= 2
  {
    var lib := Library.BookLibrary();
    var next := Rem(bookIndex + 1, |lib|);
    if !(0 <= next < |lib|) || lib[next].bookmark.None? then []
    else
      var bm := lib[next].bookmark.value;
      if !HasFolder(bm) then []
      else
        (if bm.front != "" then [TextureBasePath(bm, bm.front)] else [])
        + (if bm.back != "" then [TextureBasePath(bm, bm.back)] else [])
  }

  /**
   * From any catalog entry the preload fetches exactly the two bookmark
   * textures the next-book switch will show.
   */
  lemma PreloadMatchesNextBook(bookIndex: int)
    requires 0 <= bookIndex < |Library.BookLibrary()|
    ensures var bm := SelectBookmark(SelectBook(BookUI.NextBookIndex(bookIndex, |Library.BookLibrary()|)));
      PreloadPaths(bookIndex) == [TextureBasePath(bm, bm.front), TextureBasePath(bm, bm.back)]
  {
    Library.CatalogShape();
    BookUI.SwitchInRange(bookIndex, |Library.BookLibrary()|);
  }

  // ---------------------------------------------------------------- face and turn

  /** A click shows the back (1) from the front (0), and the front from anything else. */
  function ToggledFace(face: int): (r: int)
    ensures r == 0 || r == 1
    ensures (r == 1) <==> (face == 0)
  {
    if face == 0 then 1 else 0
  }

  /** The click handler writes the toggled face to the shared face atom. */
  method Click(store: Library.Store)
    modifies store`bookmarkFace
    ensures store.bookmarkFace == ToggledFace(old(store.bookmarkFace))
  {
    store.bookmarkFace := if store.bookmarkFace == 0 then 1 else 0;
  }

  /** Two clicks bring a face of 0 or 1 back. */
  lemma ToggleTwice(face: int)
    requires face == 0 || face == 1
    ensures ToggledFace(ToggledFace(face)) == face
  {
  }

  /** The Y rotation that shows the face: a half turn for the back, none otherwise. */
  function TargetRotationY(face: int): (r: real)
    ensures face == 1 ==> r == Pi
    ensures face != 1 ==> r == 0.0
  {
    if face == 1 then Pi else 0.0
  }

  /** `(x - 2 PI) / (2 PI)` is one less than `x / (2 PI)`. */
  lemma TurnCount(x: real)
    ensures (x - 2.0 * Pi) / (2.0 * Pi) == x / (2.0 * Pi) - 1.0
    ensures (x + 2.0 * Pi) / (2.0 * Pi) == x / (2.0 * Pi) + 1.0
  {
  }

  /**
   * The two normalisation loops: whole turns are taken off or added until
   * the difference lies in [-PI, PI]. A difference already there is kept.
   */
  method NormalizeAngle(diff: real) returns (d: real, ghost turns: int)
    ensures -Pi <= d <= Pi
    ensures d == diff + 2.0 * Pi * (turns as real)
    ensures -Pi <= diff <= Pi ==> d == diff
  {
    d := diff;
    turns := 0;
    while d > Pi
      invariant d == diff + 2.0 * Pi * (turns as real)
      invariant diff <= Pi ==> d == diff
      invariant diff > Pi ==> d > -Pi
      decreases (d / (2.0 * Pi)).Floor
    {
      TurnCount(d);
      d := d - 2.0 * Pi;
      turns := turns - 1;
    }
    ghost var first := d;
    while d < -Pi
      invariant d == diff + 2.0 * Pi * (turns as real)
      invariant d <= Pi
      invariant first >= -Pi ==> d == first
      invariant first < -Pi ==> d < Pi
      decreases (-d / (2.0 * Pi)).Floor
    {
      TurnCount(-d);
      d := d + 2.0 * Pi;
      turns := turns + 1;
    }
  }

  /** The share of the remaining turn taken in a frame lasting `delta` seconds. */
  function StepFactor(delta: real): (f: real)
    ensures f <= 1.0
    ensures delta >= 0.0 ==> 0.0 <= f
    ensures delta * 3.0 >= 1.0 ==> f == 1.0
  {
    MinReal(delta * 3.0, 1.0)
  }

  /** The bookmark's group; its Y rotation is the only state the frame callback changes. */
  class BookmarkGroup {
    var rotationY: real

    constructor ()
      ensures rotationY == 0.0
    {
      rotationY := 0.0;
    }

    /**
     * One frame: turn by the normalised difference to the face's target
     * angle, scaled by the step factor. A frame never turns by more than a
     * half turn nor past the target, and a frame of at least a third of a
     * second lands on the target, up to whole turns.
     */
    method Frame(face: int, delta: real) returns (ghost diff: real, ghost turns: int)
      requires delta >= 0.0
      modifies this
      ensures diff == TargetRotationY(face) - old(rotationY) + 2.0 * Pi * (turns as real)
      ensures -Pi <= diff <= Pi
      ensures rotationY == old(rotationY) + diff * StepFactor(delta)
      ensures diff >= 0.0 ==> old(rotationY) <= rotationY <= old(rotationY) + diff
      ensures diff <= 0.0 ==> old(rotationY) + diff <= rotationY <= old(rotationY)
      ensures delta * 3.0 >= 1.0 ==> rotationY == old(rotationY) + diff
    {
      var target := TargetRotationY(face);
      var currentY := rotationY;
      var d := target - currentY;
      d, turns := NormalizeAngle(d);
      diff := d;
      var f := StepFactor(delta);
      TurnBy(d, f);
    }

    /**
     * `rotation.y += d * f`: with `f` in [0, 1] the group turns toward `d`
     * without passing it, and lands on it when `f` is 1.
     */
    method TurnBy(d: real, f: real)
      requires 0.0 <= f <= 1.0
      modifies this
      ensures rotationY == old(rotationY) + d * f
      ensures d >= 0.0 ==> old(rotationY) <= rotationY <= old(rotationY) + d
      ensures d <= 0.0 ==> old(rotationY) + d <= rotationY <= old(rotationY)
      ensures f == 1.0 ==> rotationY == old(rotationY) + d
    {
      StepWithin(rotationY, d, f);
      rotationY := rotationY + d * f;
    }
  }

  /** A step of `d * f` with `f` in [0, 1] stays between 0 and `d`. */
  lemma StepWithin(x: real, d: real, f: real)
    requires 0.0 <= f <= 1.0
    ensures d >= 0.0 ==> x <= x + d * f <= x + d
    ensures d <= 0.0 ==> x + d <= x + d * f <= x
  {
    if d >= 0.0 {
      assert d * f <= d * 1.0;
    } else {
      assert d * f >= d * 1.0;
    }
  }

  // ---------------------------------------------------------------- materials

  /** A material of the bookmark's box: the edge colour, a texture map, or the gold stand-in. */
  datatype Material<T> = EdgeColor | TextureMap(texture: T) | Gold

  /**
   * The material list: four edges (right, left, top, bottom), then the front
   * face, then the back face.
   */
  method BuildMaterials<T>(front: Option<T>, back: Option<T>) returns (mats: seq<Material<T>>)
    ensures |mats| == 6
    ensures forall i :: 0 <= i < 4 ==> mats[i] == EdgeColor
    ensures mats[4] == (if front.Some? then TextureMap(front.value) else Gold)
    ensures back.Some? ==> mats[5] == TextureMap(back.value)
    ensures back.None? && front.Some? ==> mats[5] == TextureMap(front.value)
    ensures back.None? && front.None? ==> mats[5] == Gold
  {
    mats := [EdgeColor, EdgeColor, EdgeColor, EdgeColor];
    if front.Some? {
      mats := mats + [TextureMap(front.value)];
    } else {
      mats := mats + [Gold];
    }
    if back.Some? {
      mats := mats + [TextureMap(back.value)];
    } else if front.Some? {
      mats := mats + [TextureMap(front.value)];
    } else {
      mats := mats + [Gold];
    }
  }
}
