/**
 * The notebook catalog: page-list construction, the static book library and
 * the shared application state (the atoms every component reads and writes).
 */
module Library {
  import opened Wrappers

  /** One panel of a notebook: the texture names shown on its two faces (absent = undefined). */
  datatype PageFaces = PageFaces(front: Option<string>, back: Option<string>)

  /** The bookmark shown beside a notebook: two texture names and an optional folder. */
  datatype BookmarkSpec = BookmarkSpec(front: string, back: string, folder: Option<string>)

  /** One catalog entry. The story text a slide displays is left out. */
  datatype Notebook = Notebook(
    id: string,
    title: string,
    notebookFolder: string,
    coverTexture: string,
    backCoverColor: string,
    bookmarkFront: string,
    bookmarkBack: string,
    pages: seq<PageFaces>,
    bookmark: Option<BookmarkSpec>)

  const DefaultInnerRuledCount: nat := 10
  const DefaultRuledTexture: string := "ruled-paper"

  /**
   * `buildNotebookPages`: the front cover, `innerRuledCount` ruled leaves, the
   * back cover. Absent arguments take the defaults, as JavaScript default
   * parameters do.
   */
  function BuildNotebookPages(
    coverFront: Option<string>,
    coverBack: Option<string>,
    innerRuledCount: Option<nat>,
    ruledTexture: Option<string>): (pages: seq<PageFaces>)
    ensures |pages| == innerRuledCount.GetOr(DefaultInnerRuledCount) + 2
  {
    var n := innerRuledCount.GetOr(DefaultInnerRuledCount);
    var ruled := Some(ruledTexture.GetOr(DefaultRuledTexture));
    [PageFaces(coverFront, ruled)]
      + seq(n, _ => PageFaces(ruled, ruled))
      + [PageFaces(ruled, coverBack)]
  }

  /** The faces of a page list in reading order: front then back of each panel. */
  function Faces(pages: seq<PageFaces>): (faces: seq<Option<string>>)
    ensures |faces| == 2 * |pages|
  {
    if pages == [] then [] else [pages[0].front, pages[0].back] + Faces(pages[1..])
  }

  lemma {:induction false} FacesAppend(a: seq<PageFaces>, b: seq<PageFaces>)
    ensures Faces(a + b) == Faces(a) + Faces(b)
  {
    if a == [] {
      assert a + b == b;
    } else {
      assert (a + b)[1..] == a[1..] + b;
      FacesAppend(a[1..], b);
    }
  }

  lemma {:induction false} FacesOfRuled(n: nat, ruled: Option<string>)
    ensures Faces(seq(n, _ => PageFaces(ruled, ruled))) == seq(2 * n, _ => ruled)
  {
    if n > 0 {
      var s := seq(n, _ => PageFaces(ruled, ruled));
      assert s[1..] == seq(n - 1, _ => PageFaces(ruled, ruled));
      FacesOfRuled(n - 1, ruled);
      assert seq(2 * n, _ => ruled) == [ruled, ruled] + seq(2 * (n - 1), _ => ruled);
    }
  }

  /**
   * Reading a built notebook face by face shows the front cover, then
   * `2 * innerRuledCount + 2` ruled faces, then the back cover.
   */
  lemma NotebookFaces(coverFront: Option<string>, coverBack: Option<string>, n: nat, ruled: string)
    ensures Faces(BuildNotebookPages(coverFront, coverBack, Some(n), Some(ruled)))
         == [coverFront] + seq(2 * n + 2, _ => Some(ruled)) + [coverBack]
  {
    var r := Some(ruled);
    var mid := seq(n, _ => PageFaces(r, r));
    FacesAppend([PageFaces(coverFront, r)] + mid, [PageFaces(r, coverBack)]);
    FacesAppend([PageFaces(coverFront, r)], mid);
    FacesOfRuled(n, r);
    assert Faces([PageFaces(coverFront, r)]) == [coverFront, r];
    assert Faces([PageFaces(r, coverBack)]) == [r, coverBack];
    assert [coverFront] + seq(2 * n + 2, _ => r) + [coverBack]
        == [coverFront, r] + seq(2 * n, _ => r) + [r, coverBack];
  }

  /** The shape of a built page list, panel by panel. */
  lemma NotebookPagesShape(
    coverFront: Option<string>, coverBack: Option<string>,
    innerRuledCount: Option<nat>, ruledTexture: Option<string>)
    ensures var pages := BuildNotebookPages(coverFront, coverBack, innerRuledCount, ruledTexture);
      var n := innerRuledCount.GetOr(DefaultInnerRuledCount);
      var ruled := Some(ruledTexture.GetOr(DefaultRuledTexture));
      && |pages| == n + 2
      && pages[0] == PageFaces(coverFront, ruled)
      && pages[n + 1] == PageFaces(ruled, coverBack)
      && forall i :: 0 < i < n + 1 ==> pages[i] == PageFaces(ruled, ruled)
  {
  }

  /** Without arguments a notebook has 10 ruled leaves of "ruled-paper" between undefined covers. */
  lemma DefaultNotebookPages()
    ensures var pages := BuildNotebookPages(None, None, None, None);
      && |pages| == 12
      && pages[0] == PageFaces(None, Some("ruled-paper"))
      && pages[11] == PageFaces(Some("ruled-paper"), None)
  {
  }

  /** The pages every catalog entry is given: `buildNotebookPages({ innerRuledCount: 10, ruledTexture: "ruled-paper" })`. */
  function CatalogPages(): seq<PageFaces>
  {
    BuildNotebookPages(None, None, Some(10), Some("ruled-paper"))
  }

  /** `BOOK_LIBRARY`. */
  function BookLibrary(): seq<Notebook>
  {
    [
      Notebook("notebook-01", "Đông Kinh Nghĩa Thục", "notebook1", "HD_DongKinhNghiaThuc_Cover", "#9B7F57",
        "HD_DongKinhNghiaThuc_BM_Front", "HD_DongKinhNghiaThuc_BM_Back", CatalogPages(),
        Some(BookmarkSpec("HD_DongKinhNghiaThuc_BM_Front", "HD_DongKinhNghiaThuc_BM_Back", Some("notebook1")))),
      Notebook("notebook-02", "Khởi nghĩa Yên Thế", "notebook2", "KN_YenThe_Cover", "#3D5A3D",
        "KN_YenThe_BM_Front", "KN_YenThe_BM_Back", CatalogPages(),
        Some(BookmarkSpec("KN_YenThe_BM_Front", "KN_YenThe_BM_Back", Some("notebook2")))),
      Notebook("notebook-03", "Phong trào Cần Vương", "notebook3", "PT_CanVuong_Cover", "#f4d35c",
        "PT_CanVuong_BM_Front", "PT_CanVuong_BM_Back", CatalogPages(),
        Some(BookmarkSpec("PT_CanVuong_BM_Front", "PT_CanVuong_BM_Back", Some("notebook3")))),
      Notebook("notebook-04", "Phong trào Đông Du", "notebook4", "PT_DongDu_Cover", "#1E3A5B",
        "PT_DongDu_BM_Front", "PT_DongDu_BM_Back", CatalogPages(),
        Some(BookmarkSpec("PT_DongDu_BM_Front", "PT_DongDu_BM_Back", Some("notebook4")))),
      Notebook("notebook-05", "Phong trào Duy Tân", "notebook5", "PT_DuyTan_Cover", "#1E3A5B",
        "PT_DuyTan_BM_Front", "PT_DuyTan_BM_Back", CatalogPages(),
        Some(BookmarkSpec("PT_DuyTan_BM_Front", "PT_DuyTan_BM_Back", Some("notebook5")))),
      Notebook("notebook-06", "Phong trào Chống Thuế Trung Kỳ", "notebook6", "PT_ChongThueTrungKi_Cover", "#e8e3e3",
        "PT_ChongThueTrungKi_BM_Front", "PT_ChongThueTrungKi_BM_Cover", CatalogPages(),
        Some(BookmarkSpec("PT_ChongThueTrungKi_BM_Front", "PT_ChongThueTrungKi_BM_Cover", Some("notebook6")))),
      Notebook("notebook-07", "Khởi nghĩa Bãi Sậy", "notebook7", "PT_VoSanHoa_Cover", "#df1b1b",
        "PT_VoSanHoa_BM_Front", "PT_VoSanHoa_BM_Back", CatalogPages(),
        Some(BookmarkSpec("PT_VoSanHoa_BM_Front", "PT_VoSanHoa_BM_Back", Some("notebook7")))),
      Notebook("notebook-08", "Khởi nghĩa Thái Nguyên", "notebook8", "KN_ThaiNguyen_Cover", "#df2020",
        "KN_ThaiNguyen_BM_Front", "KN_ThaiNguyen_BM_Back", CatalogPages(),
        Some(BookmarkSpec("KN_ThaiNguyen_BM_Front", "KN_ThaiNguyen_BM_Back", Some("notebook8")))),
      Notebook("notebook-09", "Phan Châu Trinh", "notebook9", "PhanChauTrinh_Cover", "#FFFFFF",
        "PhanChauTrinh_BM_Front", "PhanChauTrinh_BM_Back", CatalogPages(),
        Some(BookmarkSpec("PhanChauTrinh_BM_Front", "PhanChauTrinh_BM_Back", Some("notebook9")))),
      Notebook("notebook-10", "Phong trào Án Xá Phan Bội Châu", "notebook10", "PT_AnXaPBC_Cover", "#e8cb88",
        "PT_AnXaPBC_BM_front", "PT_AnXaPBC_BM_Back", CatalogPages(),
        Some(BookmarkSpec("PT_AnXaPBC_BM_front", "PT_AnXaPBC_BM_Back", Some("notebook10"))))
    ]
  }

  /** A catalog entry whose bookmark repeats the entry's own folder and bookmark texture names. */
  ghost predicate WellFormedEntry(b: Notebook)
  {
    && |b.pages| == 12
    && b.bookmark == Some(BookmarkSpec(b.bookmarkFront, b.bookmarkBack, Some(b.notebookFolder)))
  }

  /** The catalog has 10 entries; each has 12 pages and a bookmark that agrees with its own fields. */
  lemma CatalogShape()
    ensures |BookLibrary()| == 10
    ensures forall i :: 0 <= i < |BookLibrary()| ==> WellFormedEntry(BookLibrary()[i])
  {
  }

  /** The shared atoms: `currentBookAtom`, `bookPageAtom` and the bookmark's `bookmarkFaceAtom`. */
  class Store {
    var bookIndex: int
    var page: int
    var bookmarkFace: int

    /** Both catalog atoms start at 0; the face atom's initial value is defined outside this model. */
    constructor (initialFace: int)
      ensures bookIndex == 0 && page == 0 && bookmarkFace == initialFace
    {
      bookIndex := 0;
      page := 0;
      bookmarkFace := initialFace;
    }
  }
}
