/**
 * The notebook export (`exportNotebook.js`): the file name a notebook is
 * saved under, and the checks made before its scene is handed to the GLB
 * exporter. The exporter itself and the download are left out.
 */
module ExportNotebook {
  import opened Wrappers
  import Library

  // ---------------------------------------------------------------- whitespace

  /** The characters JavaScript's `\s` matches. */
  predicate IsWhitespace(c: char)
  {
    || c == '\t' || c == '\n' || c == '\U{000B}' || c == '\U{000C}' || c == '\r' || c == ' '
    || c == '\U{00A0}' || c == '\U{1680}' || ('\U{2000}' <= c <= '\U{200A}')
    || c == '\U{2028}' || c == '\U{2029}' || c == '\U{202F}' || c == '\U{205F}'
    || c == '\U{3000}' || c == '\U{FEFF}'
  }

  predicate NoWhitespace(s: string)
  {
    forall i :: 0 <= i < |s| ==> !IsWhitespace(s[i])
  }

  /** `s` without its leading whitespace. */
  function DropLeadingWhitespace(s: string): (r: string)
    ensures |r| <= |s| && r == s[|s| - |r|..]
    ensures r == [] || !IsWhitespace(r[0])
  {
    if s != [] && IsWhitespace(s[0]) then DropLeadingWhitespace(s[1..]) else s
  }

  /** `s.replace(/\s+/g, "_")`: every maximal run of whitespace becomes one underscore. */
  function ReplaceWhitespaceRuns(s: string): string
    decreases |s|
  {
    if s == [] then []
    else if IsWhitespace(s[0]) then "_" + ReplaceWhitespaceRuns(DropLeadingWhitespace(s[1..]))
    else [s[0]] + ReplaceWhitespaceRuns(s[1..])
  }

  /** The result has no whitespace left in it and is never longer than the input. */
  lemma {:induction false} ReplaceRemovesWhitespace(s: string)
    ensures NoWhitespace(ReplaceWhitespaceRuns(s))
    ensures |ReplaceWhitespaceRuns(s)| <= |s|
    decreases |s|
  {
    if s != [] {
      if IsWhitespace(s[0]) {
        ReplaceRemovesWhitespace(DropLeadingWhitespace(s[1..]));
      } else {
        ReplaceRemovesWhitespace(s[1..]);
      }
    }
  }

  /** A string without whitespace comes back unchanged. */
  lemma {:induction false} ReplaceKeepsPlainText(s: string)
    requires NoWhitespace(s)
    ensures ReplaceWhitespaceRuns(s) == s
    decreases |s|
  {
    if s != [] {
      assert !IsWhitespace(s[0]);
      assert NoWhitespace(s[1..]) by {
        forall i | 0 <= i < |s[1..]| ensures !IsWhitespace(s[1..][i]) {
          assert s[1..][i] == s[i + 1];
        }
      }
      ReplaceKeepsPlainText(s[1..]);
    }
  }

  /** Replacing twice is replacing once. */
  lemma ReplaceIdempotent(s: string)
    ensures ReplaceWhitespaceRuns(ReplaceWhitespaceRuns(s)) == ReplaceWhitespaceRuns(s)
  {
    ReplaceRemovesWhitespace(s);
    ReplaceKeepsPlainText(ReplaceWhitespaceRuns(s));
  }

  /** Text without whitespace passes through in front of the rest. */
  lemma {:induction false} ReplacePlainPrefix(a: string, b: string)
    requires NoWhitespace(a)
    ensures ReplaceWhitespaceRuns(a + b) == a + ReplaceWhitespaceRuns(b)
    decreases |a|
  {
    if a != [] {
      assert !IsWhitespace(a[0]);
      assert (a + b)[1..] == a[1..] + b;
      assert NoWhitespace(a[1..]) by {
        forall i | 0 <= i < |a[1..]| ensures !IsWhitespace(a[1..][i]) {
          assert a[1..][i] == a[i + 1];
        }
      }
      ReplacePlainPrefix(a[1..], b);
      assert (a + b)[0] == a[0];
      assert ReplaceWhitespaceRuns(a + b) == [a[0]] + ReplaceWhitespaceRuns(a[1..] + b);
      assert [a[0]] + (a[1..] + ReplaceWhitespaceRuns(b)) == a + ReplaceWhitespaceRuns(b);
    } else {
      assert a + b == b;
    }
  }

  /** Dropping a run of whitespace in front of non-whitespace leaves the rest. */
  lemma {:induction false} DropRun(ws: string, b: string)
    requires forall i :: 0 <= i < |ws| ==> IsWhitespace(ws[i])
    requires b == [] || !IsWhitespace(b[0])
    ensures DropLeadingWhitespace(ws + b) == b
    decreases |ws|
  {
    if ws == [] {
      assert ws + b == b;
    } else {
      assert (ws + b)[1..] == ws[1..] + b;
      DropRun(ws[1..], b);
    }
  }

  /** A whole run of whitespace, however long, becomes one underscore. */
  lemma ReplaceRun(ws: string, b: string)
    requires |ws| > 0 && forall i :: 0 <= i < |ws| ==> IsWhitespace(ws[i])
    requires b == [] || !IsWhitespace(b[0])
    ensures ReplaceWhitespaceRuns(ws + b) == "_" + ReplaceWhitespaceRuns(b)
  {
    assert (ws + b)[0] == ws[0];
    assert (ws + b)[1..] == ws[1..] + b;
    DropRun(ws[1..], b);
  }

  /** Two words separated by any run of whitespace are joined by a single underscore. */
  lemma ReplaceBetweenWords(w1: string, ws: string, w2: string)
    requires NoWhitespace(w1) && NoWhitespace(w2) && w2 != []
    requires |ws| > 0 && forall i :: 0 <= i < |ws| ==> IsWhitespace(ws[i])
    ensures ReplaceWhitespaceRuns(w1 + ws + w2) == w1 + "_" + w2
  {
    assert w1 + ws + w2 == w1 + (ws + w2);
    ReplaceKeepsPlainText(w2);
    ReplaceRun(ws, w2);
    ReplacePlainPrefix(w1, ws + w2);
  }

  // ---------------------------------------------------------------- numbers

  /** A decimal digit's character. */
  function DigitChar(d: nat): (c: char)
    requires d < 10
    ensures '0' <= c <= '9'
  {
    "0123456789"[d]
  }

  /** The value of a decimal digit character. */
  function DigitValue(c: char): nat
  {
    if '0' <= c <= '9' then (c as int - '0' as int) as nat else 0
  }

  /** `String(n)` for a natural number: its decimal digits, most significant first. */
  function NatToString(n: nat): (s: string)
    ensures |s| >= 1 && forall i :: 0 <= i < |s| ==> '0' <= s[i] <= '9'
    decreases n
  {
    if n < 10 then [DigitChar(n)] else NatToString(n / 10) + [DigitChar(n % 10)]
  }

  /** Reading decimal digits back into a number. */
  function ParseNat(s: string): nat
    decreases |s|
  {
    if s == [] then 0 else ParseNat(s[..|s| - 1]) * 10 + DigitValue(s[|s| - 1])
  }

  /** The decimal text of a number reads back as that number. */
  lemma {:induction false} NatToStringRoundTrip(n: nat)
    ensures ParseNat(NatToString(n)) == n
    decreases n
  {
    if n < 10 {
      assert DigitValue(DigitChar(n)) == n;
    } else {
      NatToStringRoundTrip(n / 10);
      var s := NatToString(n);
      assert s[..|s| - 1] == NatToString(n / 10);
      assert DigitValue(DigitChar(n % 10)) == n % 10;
    }
  }

  // ---------------------------------------------------------------- file name

  /** `book.id || "notebook-" + (index + 1)`: an empty id is replaced by the entry's 1-based number. */
  function FilePrefix(id: string, index: nat): (p: string)
    ensures id != "" ==> p == id
    ensures id == "" ==> p == "notebook-" + NatToString(index + 1)
  {
    if id != "" then id else "notebook-" + NatToString(index + 1)
  }

  /** `${prefix}_${title with whitespace runs as "_"}.glb`. */
  function ExportFilename(id: string, index: nat, title: string): string
  {
    FilePrefix(id, index) + "_" + ReplaceWhitespaceRuns(title) + ".glb"
  }

  /**
   * The name is the prefix, an underscore, the title without whitespace and
   * `.glb`: it always ends in `.glb`, starts with the id (or the numbered
   * default) and the title part has no whitespace.
   */
  lemma FilenameShape(id: string, index: nat, title: string)
    ensures var f := ExportFilename(id, index, title);
      var p := FilePrefix(id, index);
      var t := ReplaceWhitespaceRuns(title);
      && |f| == |p| + 1 + |t| + 4
      && f[..|p|] == p
      && f[|p|] == '_'
      && f[|p| + 1..|f| - 4] == t && NoWhitespace(t)
      && f[|f| - 4..] == ".glb"
  {
    ReplaceRemovesWhitespace(title);
    ConcatParts(FilePrefix(id, index), ReplaceWhitespaceRuns(title));
  }

  /** Where the parts of `p + "_" + t + ".glb"` sit. */
  lemma ConcatParts(p: string, t: string)
    ensures var f := p + "_" + t + ".glb";
      && |f| == |p| + 1 + |t| + 4
      && f[..|p|] == p
      && f[|p|] == '_'
      && f[|p| + 1..|f| - 4] == t
      && f[|f| - 4..] == ".glb"
  {
    var f := p + "_" + t + ".glb";
    assert f[..|p|] == p;
    assert f[|p| + 1..|f| - 4] == t;
  }

  /** Without an id the first entry is `notebook-1` and the tenth `notebook-10`. */
  lemma DefaultPrefixExamples()
    ensures FilePrefix("", 0) == "notebook-1"
    ensures FilePrefix("", 9) == "notebook-10"
  {
  }

  /** Ids of one length that differ give names that differ, whatever the titles. */
  lemma DistinctIdsDistinctNames(id1: string, i: nat, t1: string, id2: string, j: nat, t2: string)
    requires id1 != "" && id2 != "" && |id1| == |id2| && id1 != id2
    ensures ExportFilename(id1, i, t1) != ExportFilename(id2, j, t2)
  {
    FilenameShape(id1, i, t1);
    FilenameShape(id2, j, t2);
  }

  /** Catalog entries are saved under pairwise different names, since their ids differ and share one length. */
  lemma CatalogFilenamesDistinct(i: nat, j: nat)
    requires i < j < |Library.BookLibrary()|
    ensures var lib := Library.BookLibrary();
      ExportFilename(lib[i].id, i, lib[i].title) != ExportFilename(lib[j].id, j, lib[j].title)
  {
    var lib := Library.BookLibrary();
    assert |lib[i].id| == 11 && |lib[j].id| == 11 && lib[i].id != lib[j].id;
    DistinctIdsDistinctNames(lib[i].id, i, lib[i].title, lib[j].id, j, lib[j].title);
  }

  // ---------------------------------------------------------------- export

  /** `exportNotebookToGLB`'s file name: the one given, else "notebook.glb". */
  function GlbFilename(filename: Option<string>): (f: string)
    ensures filename.None? ==> f == "notebook.glb"
    ensures filename.Some? ==> f == filename.value
  {
    filename.GetOr("notebook.glb")
  }

  /** Why `exportNotebook` throws before the exporter is reached. */
  datatype ExportError = BookNotFound(bookIndex: int) | SceneFailed(title: string)

  /**
   * `exportNotebook(bookIndex, createNotebookScene)` up to the exporter call:
   * the file name the scene would be saved under, or why it stopped.
   * `createsScene` says whether the scene factory returned an object.
   */
  function Export(bookIndex: int, createsScene: (Library.Notebook, int) -> bool): (r: Result<string, ExportError>)
    ensures r.Err? && r.error.BookNotFound? <==> !(0 <= bookIndex < |Library.BookLibrary()|)
    ensures r.Err? && r.error.SceneFailed? <==>
      0 <= bookIndex < |Library.BookLibrary()| && !createsScene(Library.BookLibrary()[bookIndex], bookIndex)
    ensures r.Ok? ==> 0 <= bookIndex < |Library.BookLibrary()|
    ensures r.Ok? ==>
      r.value == ExportFilename(Library.BookLibrary()[bookIndex].id, bookIndex, Library.BookLibrary()[bookIndex].title)
  {
    var lib := Library.BookLibrary();
    if !(0 <= bookIndex < |lib|) then Err(BookNotFound(bookIndex))
    else
      var book := lib[bookIndex];
      if !createsScene(book, bookIndex) then Err(SceneFailed(book.title))
      else Ok(ExportFilename(book.id, bookIndex, book.title))
  }

  /** `exportAllNotebooks`: per entry, the name it is saved under, or None when its scene is not created (it is skipped). */
  function ExportAll(createsScene: (Library.Notebook, int) -> bool): (names: seq<Option<string>>)
    ensures |names| == |Library.BookLibrary()|
  {
    var lib := Library.BookLibrary();
    seq(|lib|, i requires 0 <= i < |lib| =>
      if createsScene(lib[i], i) then Some(ExportFilename(lib[i].id, i, lib[i].title)) else None)
  }

  /** Exporting all entries names each one as exporting it alone does. */
  lemma ExportAllAgreesWithExport(createsScene: (Library.Notebook, int) -> bool, i: nat)
    requires i < |Library.BookLibrary()|
    ensures var r := Export(i, createsScene);
      ExportAll(createsScene)[i] == (if r.Ok? then Some(r.value) else None)
  {
  }
}
