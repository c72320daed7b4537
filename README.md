# Notebook viewer core, modelled in Dafny

This models the core of a React and three.js viewer for a catalog of
ten notebooks. The app can show them as a 3D book or as slides. The model
covers:

- the catalog and its page lists;
- the shared atoms (book index, page, bookmark face);
- the page geometry (skin and bone chain);
- a panel's click rule with its 300 ms debounce, and the per-frame bone targets;
- the sequencer that walks the displayed page one step at a time toward the
  requested page;
- the previous/next-book switch and its "switching book" flag;
- the slide viewer's clamped navigation and its sync effect;
- the bookmark: which textures it uses, its next-book preload, its face
  toggle, its shortest-turn rotation and its materials;
- the texture cache, with its url and option keys, loads in flight, preloads and fallback;
- the choice of the export file name, and the checks made before export.

Files, one Dafny module each:

- `wrappers.dfy` (`Option`, `Result`);
- `jsmath.dfy` (JavaScript's `%`, `Math.sign`, `Math.trunc`, `degToRad`);
- `library.dfy`;
- `book_geometry.dfy`;
- `book_page.dfy`;
- `book.dfy`;
- `book_ui.dfy`;
- `slide_viewer.dfy`;
- `bookmark.dfy`;
- `texture_cache.dfy`;
- `export_notebook.dfy`.

State the source changes in place is modelled as classes:

- the atoms: `Library.Store`;
- a panel's refs: `BookPage.Panel`;
- the sequencer's state: `Book.FlipSequencer`;
- the overlay's flag: `BookUI.Switcher`;
- the viewer: `SlideViewer.Viewer`;
- the bookmark's group: `Bookmark.BookmarkGroup`;
- the cache's two maps: `TextureCache.Cache`.

Pure computations are functions with lemmas.

Inputs the source takes from the environment are parameters:

- time: the click time `now` and the frame length `delta`;
- the eased turning progress;
- `Math.sin` and `Math.cos`, which are uninterpreted functions;
- whether a scene factory returns an object;
- how a texture load would end.

Numbers are exact: integers and reals, not doubles. `undefined` is `None`. An
empty string counts as falsy wherever the source tests a string's truth.

Where the code does something one might not expect, the model follows the code:

- The at-rest bend of a panel is multiplied by the turning progress (Book.jsx line 471). A settled page is therefore flat; it does not keep a resting curve (`BookPage.FlatWhenSettled`).
- The per-panel offset of the hinge angle is `degToRad(number * 0)`, so it is always zero (`BookPage.TargetRotationIgnoresNumber`).
- The skin index is not clamped above. A vertex exactly on the free edge names bone 7 of a 7-bone chain, with weight 0 (`BookGeometry.SkinAtFreeEdge`).
- With 7 bones, the outside-curve branch (`i >= 8`) and the fold branch (`i > 8`) are never taken (`BookPage.SevenBoneTargets`).
- Nothing in the app calls the overlay's `prevBook` and `nextBook` handlers (`src/components/Book/UI.jsx` line 42 sets `Controls = null`). `BookUI.Switcher.NextBook` and `PrevBook` model handlers that are currently unreachable, so the flag never rises in the running app.
- The overlay's effect leaves the "switching book" flag raised when it is shown with the marquee, and when a switch happens while already on page 0 (`BookUI.Switcher.Render`).

## Model

| member | source | states |
|---|---|---|
| Library.BuildNotebookPages | src/state/library.jsx:9-24 | the list has `innerRuledCount + 2` panels, with 10 as the default count |
| Library.Faces | src/state/library.jsx:15-22 | two faces per panel, front then back |
| Library.BookLibrary | src/state/library.jsx:36-287 | the ten catalog entries as written, each given the pages of `buildNotebookPages({ innerRuledCount: 10, ruledTexture: "ruled-paper" })`; their properties are in `Library.CatalogShape` |
| Library.NotebookPagesShape | src/state/library.jsx:9-24 | panel 0 is the front cover over ruled paper, the last is ruled paper over the back cover, every panel between is ruled on both faces; absent arguments take the defaults |
| Library.NotebookFaces | src/state/library.jsx:15-22 | read face by face: the front cover, `2n + 2` ruled faces, the back cover |
| Library.DefaultNotebookPages | src/state/library.jsx:12-13 | with no arguments: 12 panels of "ruled-paper" with undefined covers |
| Library.CatalogShape | src/state/library.jsx:36-287 | 10 entries; each has 12 pages and a bookmark that repeats the entry's folder and bookmark texture names |
| Library.Store.constructor | src/state/library.jsx:290-293 | the book-index and page atoms start at 0 |
| JsMath.Rem | src/components/Book/UI.jsx:31-37 | JavaScript's `%`: the remainder has the dividend's sign and is below the divisor |
| BookGeometry.SkinIndex | src/components/Book/Book.jsx:95 | never negative, and 0 for a vertex left of the hinge |
| BookGeometry.SkinWeight | src/components/Book/Book.jsx:96 | the fraction of the segment a vertex lies along, with JavaScript's `%`; its bounds are in `BookGeometry.SkinBinding` |
| BookGeometry.SkinIndexBuffer | src/components/Book/Book.jsx:92-98 | four indices per vertex |
| BookGeometry.SkinWeightBuffer | src/components/Book/Book.jsx:92-99 | four weights per vertex |
| BookGeometry.BuildSkin | src/components/Book/Book.jsx:92-100 | the loop's two buffers equal the per-vertex quads, in vertex order |
| BookGeometry.SkinBufferAt | src/components/Book/Book.jsx:95-99 | vertex v's four entries in each buffer are exactly its index quad and its weight quad |
| BookGeometry.SkinBinding | src/components/Book/Book.jsx:95-99 | for x >= 0 the weight is in [0, 1), the weights sum to 1, and `(index + weight) * SEGMENT_WIDTH == x` |
| BookGeometry.SkinIndexInChain | src/components/Book/Book.jsx:95-98 | a vertex strictly inside the page follows two bones that exist |
| BookGeometry.SkinAtFreeEdge | src/components/Book/Book.jsx:95-99 | at x = PAGE_WIDTH the quads are [6, 7, 0, 0] and [1, 0, 0, 0] |
| BookGeometry.SkinIndexMonotone | src/components/Book/Book.jsx:95 | the bone index never decreases along the width |
| BookGeometry.BuildBoneChain | src/components/Book/Book.jsx:211-223 | 7 bones: bone 0 at x 0 with no parent, and each later bone at SEGMENT_WIDTH as a child of the one before |
| BookGeometry.RestXOfChain | src/components/Book/Book.jsx:211-223 | parents come before children, and bone k rests at `k * SEGMENT_WIDTH` |
| BookGeometry.RestX | src/components/Book/Book.jsx:211-223 | a bone's rest position: its offset plus its parent's rest position; its values are in `BookGeometry.RestXOfChain` |
| BookGeometry.ChainSpansPage | src/components/Book/Book.jsx:211-223 | bone 0 is the only root, and the last bone rests on the page's free edge |
| BookGeometry.SampleIndices | src/components/Book/Book.jsx:359-364 | the spine sample is at least bone 1; the edge sample is at most the last bone, and at least bone 1 when there are two bones |
| BookGeometry.SampleIndicesOfChain | src/components/Book/Book.jsx:359-364 | on the 7-bone chain the collision guard samples bones 1 and 6 |
| BookPage.Panel.constructor | src/components/Book/Book.jsx:191-192 | no click has been recorded yet, and the panel is not highlighted |
| BookPage.Panel.PointerEnter | src/components/Book/Book.jsx:506-509 | highlights the panel and leaves the click time alone |
| BookPage.Panel.PointerLeave | src/components/Book/Book.jsx:510-513 | clears the highlight and leaves the click time alone |
| BookPage.Panel.OnClick | src/components/Book/Book.jsx:514-563 | the click is accepted iff at least 300 ms have passed since the last accepted one; an accepted click records its time, writes the click rule's page if it has one, and clears the highlight; an ignored click changes nothing |
| BookPage.ClickTarget | src/components/Book/Book.jsx:536-561 | a click that writes a page writes one different from the page the panel sees, in a book of at least one panel; its cases are in `Book.ClickCases` |
| BookPage.TargetRotation | src/components/Book/Book.jsx:351-355 | the hinge angle; its value is in `BookPage.TargetRotationIgnoresNumber` |
| BookPage.TargetRotationIgnoresNumber | src/components/Book/Book.jsx:351-355 | the hinge angle is -PI/2.4 when the panel is opened and PI/2 otherwise, whatever its number |
| BookPage.InsideCurveIntensity | src/components/Book/Book.jsx:441 | the inward curl of the first eight bones, 0 beyond |
| BookPage.OutsideCurveIntensity | src/components/Book/Book.jsx:442 | the outward curl from the eighth bone on, 0 before |
| BookPage.TurningIntensity | src/components/Book/Book.jsx:443-444 | the turning curl, scaled by the progress |
| BookPage.TurningFoldIntensity | src/components/Book/Book.jsx:447-450 | the fold past the eighth bone, scaled by the progress |
| BookPage.BoneTargetAt | src/components/Book/Book.jsx:426-472 | index i's target in each branch of the loop body; index 0 drives the panel's group, the others drive `bones[i]`; its properties are in the lemmas below |
| BookPage.FrameTargets | src/components/Book/Book.jsx:351-474 | the frame computes one target per bone, which is `BoneTargetAt` for the panel's hinge angle |
| BookPage.BoneLoop | src/components/Book/Book.jsx:425-474 | the loop's i-th target is `BoneTargetAt(i)`, for every bone |
| BookPage.RigidWhenCoverOrClosed | src/components/Book/Book.jsx:432-458 | covers, and all panels of a closed book, turn on bone 0 only: the other bones target 0 and nothing folds |
| BookPage.HingeTargetsRotation | src/components/Book/Book.jsx:426-469 | index 0, whose target drives the panel's group rather than a bone, always targets the hinge angle |
| BookPage.FlatWhenSettled | src/components/Book/Book.jsx:460-471 | when the turning progress is 0, every bone but the hinge targets 0 and nothing folds |
| BookPage.SevenBoneTargets | src/components/Book/Book.jsx:441-471 | on 7 bones nothing folds, and an open panel's inner bone targets the hinge angle times progress times (inside curl + turning curl) |
| Book.SequencerStep | src/components/Book/Book.jsx:631-636 | no move iff the pages agree; otherwise one page toward the request, and 50 ms when more than two pages remain, 150 ms otherwise |
| Book.Trace | src/components/Book/Book.jsx:628-640 | the pages shown during one walk; it starts at the displayed page, and its shape is in `Book.TraceIsUnitWalk` |
| Book.TraceIsUnitWalk | src/components/Book/Book.jsx:628-640 | the displayed pages run in unit steps from the start to the request, one per page in between, and end on the request |
| Book.TraceFromCoverToFive | src/components/Book/Book.jsx:628-640 | from page 0 to page 5 the book shows 0, 1, 2, 3, 4, 5 |
| Book.FlipSequencer.constructor | src/components/Book/Book.jsx:600 | the displayed page starts at the requested one, with no timer pending |
| Book.FlipSequencer.Run | src/components/Book/Book.jsx:630-637 | one updater run applies `SequencerStep` and schedules its delay when it moved |
| Book.FlipSequencer.SetPage | src/components/Book/Book.jsx:628-640 | a new request cancels the pending timer and starts a walk from the displayed page; an unchanged request changes nothing |
| Book.FlipSequencer.TimerFires | src/components/Book/Book.jsx:633 | a pending firing applies the sequencer step: the displayed page moves one page toward the request with the 50 ms or 150 ms follow-up delay, or the walk stops when it has arrived; with no timer pending nothing changes |
| Book.PanelPropsAt | src/components/Book/Book.jsx:714-722 | the props of one panel; their meaning is in `Book.PanelFlags` |
| Book.Panels | src/components/Book/Book.jsx:714-722 | one panel per page; panel i has number i and sees the displayed page |
| Book.PanelFlags | src/components/Book/Book.jsx:718-722 | opened iff before the displayed page, a cover iff first or last, closed iff the displayed page is 0 or at least the last |
| Book.CountOpened | src/components/Book/Book.jsx:720 | the number of opened panels, never more than the panels |
| Book.CountOpenedPrefix | src/components/Book/Book.jsx:720 | the first k panels have `min(k, displayed page)` opened ones (0 when the page is negative) |
| Book.OpenedCount | src/components/Book/Book.jsx:720 | showing page d, exactly d panels are turned over |
| Book.ClickCases | src/components/Book/Book.jsx:536-561 | on the book's panels: the front cover opens to 1, the back cover closes to 0, an unopened panel goes to itself (or one further when it is the displayed page), an opened one goes back one |
| Book.ClickAlwaysTurns | src/components/Book/Book.jsx:536-561 | on the book's panels every click writes a page in range that differs from the displayed one |
| BookUI.SwitchInRange | src/components/Book/UI.jsx:29-40 | both switches stay in range: the next after the last book is the first, the previous before the first is the last, otherwise they move by one |
| BookUI.SwitchRoundTrip | src/components/Book/UI.jsx:29-40 | previous undoes next, and next undoes previous |
| BookUI.NextBookIndex | src/components/Book/UI.jsx:37 | in range for any index from -1 on; the wrap-around is in `BookUI.SwitchInRange` |
| BookUI.PrevBookIndex | src/components/Book/UI.jsx:31 | in range for any index from `1 - n` on; the wrap-around is in `BookUI.SwitchInRange` |
| BookUI.Switcher.constructor | src/components/Book/UI.jsx:16-27 | the flag starts lowered |
| BookUI.Switcher.NextBook | src/components/Book/UI.jsx:35-40 | raises the flag, moves to the next book with wrap-around, and sets page 0 |
| BookUI.Switcher.PrevBook | src/components/Book/UI.jsx:29-34 | raises the flag, moves to the previous book with wrap-around, and sets page 0 |
| BookUI.Switcher.Render | src/components/Book/UI.jsx:18-27 | the effect runs only on a page change, and then lowers the flag unless the marquee is shown |
| SlideViewer.NextSlide | src/components/PowerPointViewer/PowerPointSlideViewer.jsx:25-29 | one slide on, unless on the last |
| SlideViewer.PrevSlide | src/components/PowerPointViewer/PowerPointSlideViewer.jsx:31-35 | one slide back, unless on the first |
| SlideViewer.GoToSlide | src/components/PowerPointViewer/PowerPointSlideViewer.jsx:58-62 | jumps iff the index names a slide |
| SlideViewer.KeyCommand | src/components/PowerPointViewer/PowerPointSlideViewer.jsx:46-52 | a command exactly for the two arrow keys, and never a jump |
| SlideViewer.Apply | src/components/PowerPointViewer/PowerPointSlideViewer.jsx:25-62 | one command's effect on the slide; it keeps the range, by `SlideViewer.ApplyKeepsRange` |
| SlideViewer.ApplyAll | src/components/PowerPointViewer/PowerPointSlideViewer.jsx:25-62 | a sequence of commands applied in order; it keeps the range, by `SlideViewer.ApplyAllKeepsRange` |
| SlideViewer.KeyBindings | src/components/PowerPointViewer/PowerPointSlideViewer.jsx:46-52 | left arrow goes back, right arrow goes on, other keys do nothing |
| SlideViewer.OnlyArrowsAct | src/components/PowerPointViewer/PowerPointSlideViewer.jsx:46-52 | every key other than the two arrows is ignored |
| SlideViewer.ApplyKeepsRange | src/components/PowerPointViewer/PowerPointSlideViewer.jsx:25-62 | every command keeps a valid slide valid |
| SlideViewer.ApplyAllKeepsRange | src/components/PowerPointViewer/PowerPointSlideViewer.jsx:18-62 | no sequence of commands leaves the range |
| SlideViewer.NextThenPrevious | src/components/PowerPointViewer/PowerPointSlideViewer.jsx:25-35 | next then previous returns to any slide but the last |
| SlideViewer.Viewer.constructor | src/components/PowerPointViewer/PowerPointSlideViewer.jsx:18-42 | starts on slide 0, with the atoms synced |
| SlideViewer.Viewer.Sync | src/components/PowerPointViewer/PowerPointSlideViewer.jsx:38-42 | the book index follows the slide; page and face reset to 0 |
| SlideViewer.Viewer.SetCurrentSlide | src/components/PowerPointViewer/PowerPointSlideViewer.jsx:38-42 | the effect runs only when the slide actually changes |
| SlideViewer.Viewer.GoToNext | src/components/PowerPointViewer/PowerPointSlideViewer.jsx:25-29 | the slide becomes `NextSlide`; the atoms sync if it moved and are untouched otherwise |
| SlideViewer.Viewer.GoToPrevious | src/components/PowerPointViewer/PowerPointSlideViewer.jsx:31-35 | the slide becomes `PrevSlide`; the atoms sync if it moved and are untouched otherwise |
| SlideViewer.Viewer.GoTo | src/components/PowerPointViewer/PowerPointSlideViewer.jsx:58-62 | the slide becomes `GoToSlide`; the atoms sync if it moved and are untouched otherwise |
| SlideViewer.Viewer.KeyDown | src/components/PowerPointViewer/PowerPointSlideViewer.jsx:45-56 | the key's command is applied, the range is kept, and the atoms sync on a move |
| SlideViewer.Viewer.ToggleBookmarkFace | src/components/PowerPointViewer/PowerPointSlideViewer.jsx:166 | the button toggles the face atom, as a click on the bookmark does |
| Bookmark.SelectBook | src/components/Bookmark/Bookmark.jsx:20 | the entry at the index, or the first entry when no entry has that index |
| Bookmark.SelectBookmark | src/components/Bookmark/Bookmark.jsx:21 | the entry's bookmark, or the default bookmark3/bookmark2 with no folder |
| Bookmark.TextureBasePath | src/components/Bookmark/Bookmark.jsx:29-76 | `textures/folder/name` when the folder is non-empty, `textures/name` otherwise |
| Bookmark.BasePathShape | src/components/Bookmark/Bookmark.jsx:29-76 | every path starts with `textures/` and ends with the texture name |
| Bookmark.CatalogBookmarkPaths | src/components/Bookmark/Bookmark.jsx:29-32 | for each catalog entry the textures come from the entry's own folder, under its bookmark texture names |
| Bookmark.PreloadPaths | src/components/Bookmark/Bookmark.jsx:98-120 | at most two base paths are preloaded |
| Bookmark.PreloadMatchesNextBook | src/components/Bookmark/Bookmark.jsx:98-120 | from any entry the preload fetches exactly the front and back textures the next-book switch will show |
| Bookmark.ToggledFace | src/components/Bookmark/Bookmark.jsx:193 | the result is 0 or 1, and it is 1 iff the face was 0 |
| Bookmark.Click | src/components/Bookmark/Bookmark.jsx:191-194 | writes the toggled face to the atom |
| Bookmark.ToggleTwice | src/components/Bookmark/Bookmark.jsx:193 | two toggles bring a face of 0 or 1 back |
| Bookmark.TargetRotationY | src/components/Bookmark/Bookmark.jsx:126 | a half turn for the back face, none otherwise |
| Bookmark.NormalizeAngle | src/components/Bookmark/Bookmark.jsx:129-132 | the result lies in [-PI, PI], differs from the input by whole turns, and equals the input when that is already in range |
| Bookmark.StepFactor | src/components/Bookmark/Bookmark.jsx:134 | at most 1, not negative for a non-negative frame, and exactly 1 for a frame of at least a third of a second |
| Bookmark.BookmarkGroup.Frame | src/components/Bookmark/Bookmark.jsx:123-136 | the rotation moves by the normalized difference to the target times the step factor; it never overshoots the target, and lands on it (up to whole turns) when the frame is long enough |
| Bookmark.BookmarkGroup.TurnBy | src/components/Bookmark/Bookmark.jsx:134 | the rotation grows by `d * f`; with `f` in [0, 1] it stays between its old value and the old value plus `d`, and reaches that when `f` is 1 |
| Bookmark.StepWithin | src/components/Bookmark/Bookmark.jsx:134 | adding a step of `d * f` with `f` in [0, 1] to `x` lands between `x` and `x + d` |
| Bookmark.BuildMaterials | src/components/Bookmark/Bookmark.jsx:139-188 | four edge materials; the front texture or gold; then the back texture, else the front texture, else gold |
| TextureCache.FlipYString | src/utils/textureCache.js:25 | "true" iff the flip flag is given as true, "false" otherwise |
| TextureCache.ColorSpaceString | src/utils/textureCache.js:23-24 | a non-empty colour space is kept as written; an absent or empty one reads "srgb" |
| TextureCache.CacheKey | src/utils/textureCache.js:21-25 | the url followed by the two option strings; its properties are in the three lemmas below |
| TextureCache.CacheKeyExtendsUrl | src/utils/textureCache.js:25 | the key starts with the url and is longer, so it never equals the url |
| TextureCache.CacheKeyDeterminesOptions | src/utils/textureCache.js:23-25 | for one url two option sets share a key iff their flip strings and colour-space strings agree |
| TextureCache.KeyDefaults | src/utils/textureCache.js:20-25 | an absent flip flag keys like false; an absent or empty colour space keys like SRGB; `{}` gives `url?flipY=false&colorSpace=srgb` |
| TextureCache.Cache.constructor | src/utils/textureCache.js:5-6 | both maps start empty |
| TextureCache.Cache.Request | src/utils/textureCache.js:20-88 | a key hit returns the cached texture; a url hit adopts the given options and also files the texture under the key; otherwise the request joins a load in flight under the key or the url, or starts a new load registered under both |
| TextureCache.Cache.Resolve | src/utils/textureCache.js:57-75 | the new texture takes the given options (SRGB by default), is cached under the key and the url, and both promise entries are dropped |
| TextureCache.Cache.Reject | src/utils/textureCache.js:77-81 | both promise entries are dropped and nothing is cached |
| TextureCache.Cache.DropLoad | src/utils/textureCache.js:72-79 | exactly the load's two promise entries and the load itself are removed |
| TextureCache.Cache.Preload | src/utils/textureCache.js:95-110 | the texture map and every texture stay unchanged; when the url was already pending, nothing changes; otherwise a load starts, registered under the key and the url; afterwards the url is pending |
| TextureCache.Cache.PreloadAll | src/utils/textureCache.js:117-119 | the texture map and every texture stay unchanged, no promise entry or load is dropped, and afterwards every url in the list is pending |
| TextureCache.Cache.PreloadWithFallback | src/utils/textureCache.js:143-150 | the texture map and every texture stay unchanged; nothing happens when the png or the jpg is cached; otherwise the png becomes pending, and a load of it starts exactly when it was not pending before |
| TextureCache.Cache.Clear | src/utils/textureCache.js:162-168 | both maps are emptied |
| TextureCache.Cache.Stats | src/utils/textureCache.js:173-178 | the two map sizes |
| TextureCache.LoadWithFallback | src/utils/textureCache.js:127-136 | succeeds iff the png or the jpg loads, with the png's texture when it loads |
| TextureCache.FallbackAttempts | src/utils/textureCache.js:127-136 | the png is tried first, and the jpg is tried iff the png fails |
| TextureCache.FallbackOrder | src/utils/textureCache.js:127-136 | the fallback succeeds iff its last attempt does, with that texture; every earlier attempt failed; a failure names the base path after both tries |
| ExportNotebook.ReplaceWhitespaceRuns | src/utils/exportNotebook.js:112 | `title.replace(/\s+/g, "_")`; its properties are in the lemmas below |
| ExportNotebook.ReplaceRemovesWhitespace | src/utils/exportNotebook.js:112 | the replaced title has no whitespace and is never longer than the title |
| ExportNotebook.ReplaceKeepsPlainText | src/utils/exportNotebook.js:112 | a title without whitespace is unchanged |
| ExportNotebook.ReplaceIdempotent | src/utils/exportNotebook.js:112 | replacing twice is the same as replacing once |
| ExportNotebook.ReplacePlainPrefix | src/utils/exportNotebook.js:112 | a prefix without whitespace passes through, and only the rest is rewritten |
| ExportNotebook.ReplaceRun | src/utils/exportNotebook.js:112 | a maximal run of whitespace becomes a single underscore |
| ExportNotebook.ReplaceBetweenWords | src/utils/exportNotebook.js:112 | two words separated by any whitespace run are joined by one underscore |
| ExportNotebook.NatToStringRoundTrip | src/utils/exportNotebook.js:112 | the decimal text of the 1-based index reads back as that number |
| ExportNotebook.NatToString | src/utils/exportNotebook.js:112 | the decimal text of `index + 1`: at least one character, all of them digits |
| ExportNotebook.FilePrefix | src/utils/exportNotebook.js:112 | the id when it is non-empty, otherwise `notebook-` followed by the 1-based index |
| ExportNotebook.ExportFilename | src/utils/exportNotebook.js:74 | the export file name; its shape is in `ExportNotebook.FilenameShape` |
| ExportNotebook.FilenameShape | src/utils/exportNotebook.js:112 | the name is the prefix, `_`, the title with no whitespace, then `.glb` |
| ExportNotebook.DefaultPrefixExamples | src/utils/exportNotebook.js:74 | without an id the first entry is `notebook-1` and the tenth is `notebook-10` |
| ExportNotebook.DistinctIdsDistinctNames | src/utils/exportNotebook.js:74 | different non-empty ids of one length give different names, whatever the titles |
| ExportNotebook.CatalogFilenamesDistinct | src/utils/exportNotebook.js:63-74 | no two catalog entries are exported under the same name |
| ExportNotebook.GlbFilename | src/utils/exportNotebook.js:12 | the given name, or `notebook.glb` |
| ExportNotebook.Export | src/utils/exportNotebook.js:100-120 | "not found" iff the index names no entry; "scene failed" iff the entry exists but its scene is not created; otherwise the entry's file name |
| ExportNotebook.ExportAll | src/utils/exportNotebook.js:61-92 | one outcome per catalog entry |
| ExportNotebook.ExportAllAgreesWithExport | src/utils/exportNotebook.js:63-74 | exporting everything names each entry as exporting that entry alone does, and skips exactly those whose export fails |

## Left out

- Rendering is not modelled:
  - the three.js scene, meshes and materials;
  - the raycaster and the cover-collision push with its `lerp`;
  - the emissive highlight lerp;
  - the z position and spine values;
  - the story text of each catalog entry.
- The damping of bones and of the bookmark toward their targets (`easing.dampAngle`) is left out. The model computes the targets.
- The sine easing of the turning progress, and its clock, are left out (Book.jsx lines 344-349). The progress is a parameter.
- Clocks and timers are inputs: the click time is a parameter, and a pending timer is a state that `TimerFires` consumes.
- Texture I/O is left out: the loader, `dispose`, and the promises themselves. A load is an id resolved or rejected later.
- The next-book bookmark preload runs inside a 500 ms `setTimeout` (Bookmark.jsx lines 105-118). The delay is not modelled; `Bookmark.PreloadPaths` gives only the paths it asks for.
- TextureCache.Cache.PreloadWithFallback: the delayed jpg preload 100 ms later is not modelled (textureCache.js lines 152-156).
- The bookmark's asynchronous texture-loading effect and its cancellation are left out (Bookmark.jsx lines 25-95). Only the paths it asks for are modelled.
- Book.jsx's page-texture preload effect and the cover-texture loading are left out.
- The console overrides at the top of Book.jsx are left out.
- The GLB exporter, the Blob download, `downloadFile`, logging and the 500 ms delay between exports are left out.
- `exportAllNotebooks` runs its exports concurrently. The model gives each entry's outcome.
- components/Bookmark/UI.jsx is not part of this model: the face atom's initial value is a constructor parameter.
- The library's two selector atoms are left out. They only read `BOOK_LIBRARY[bookIndex]`.
- `innerRuledCount` is a natural number. Negative or fractional counts, which `Array.from` would reject or round, are not modelled.
- Book ids and file names are strings compared exactly. There is no Unicode normalisation.
- Bookmark.PreloadPaths: its own contract states only the bound. Its content is stated by `Bookmark.PreloadMatchesNextBook`, for valid indices.
- TextureCache.Cache.Preload: "pending" also counts a url whose key alone is cached or loading. A url string can be another url's key, and in that case such a request starts no load.
