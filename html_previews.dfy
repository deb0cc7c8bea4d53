// Static HTML previews of a project (scripts/generate_html_previews.ts): one page per
// scene with prev/next navigation and the items its step has revealed, and one full
// preview per slide, linked to its neighbours in the sorted slide list. Only the
// decisions that fill the page templates are modelled; the template text is not.

module HtmlPreviews {
  import opened Common
  import opened Text
  import opened Collections
  import opened VideoTypes

  const NoSlideContent := "<!-- No Slide Content -->"
  const NoContent := "<!-- No Content -->"
  const ForceVisible := " { opacity: 1 !important; transform: none !important; }"
  const AudioDir := "../assets/audio/"

  // ----- Scene file names -----

  /** `scene_<index padded to two digits>.html` */
  function SceneFileName(i: nat): string
  {
    "scene_" + PadStart(NatToString(i), 2, '0') + ".html"
  }

  /** The number inside a scene file name has at least two digits, is the index's own
      decimal text when that is longer, and parses back to the index. */
  lemma SceneFileNameParses(i: nat)
    ensures var name := SceneFileName(i);
      var digits := name[6..|name| - 5];
      |name| >= 13 && StartsWith(name, "scene_") && EndsWith(name, ".html") &&
      |digits| >= 2 && (|NatToString(i)| >= 2 ==> digits == NatToString(i)) &&
      AllDigits(digits) && ParseDigits(digits) == i
  {
    var digits := PadStart(NatToString(i), 2, '0');
    var name := SceneFileName(i);
    assert name[6..|name| - 5] == digits;
    ParsePadded(i, 2);
  }

  /** Distinct scenes never share a file name, so no page overwrites another. */
  lemma SceneFileNamesDistinct(i: nat, j: nat)
    ensures SceneFileName(i) == SceneFileName(j) <==> i == j
  {
    if SceneFileName(i) == SceneFileName(j) {
      SceneFileNameParses(i);
      SceneFileNameParses(j);
    }
  }

  // ----- Scene navigation -----

  /** The prev link: `#` on the first scene, otherwise the previous scene's page. */
  function PrevLink(index: nat, total: nat): (link: string)
    requires index < total
    ensures link == "#" <==> index == 0
    ensures index > 0 ==> link == SceneFileName(index - 1)
  {
    if index > 0 then SceneFileName(index - 1) else "#"
  }

  /** The next link: `#` on the last scene, otherwise the next scene's page. */
  function NextLink(index: nat, total: nat): (link: string)
    requires index < total
    ensures link == "#" <==> index == total - 1
    ensures index < total - 1 ==> link == SceneFileName(index + 1)
  {
    if index < total - 1 then SceneFileName(index + 1) else "#"
  }

  // ----- Step visibility -----

  function ItemSelector(i: nat): string
  {
    "#item-" + NatToString(i)
  }

  /** The selectors `#item-1` … `#item-k` of the items step `k` has revealed. */
  function Selectors(k: int): (sels: seq<string>)
    ensures |sels| == if k > 0 then k else 0
  {
    if k <= 0 then [] else Selectors(k - 1) + [ItemSelector(k)]
  }

  /** Item `j` is made visible exactly when `1 <= j <= k`. */
  lemma {:induction false} SelectorsExactly(k: int, j: nat)
    ensures ItemSelector(j) in Selectors(k) <==> 1 <= j <= k
    decreases if k > 0 then k else 0
  {
    if k > 0 {
      SelectorsExactly(k - 1, j);
      if ItemSelector(j) == ItemSelector(k) {
        assert ItemSelector(j)[6..] == NatToString(j);
        assert ItemSelector(k)[6..] == NatToString(k);
        NatToStringInjective(j, k);
      }
    }
  }

  /** The selectors in order: the `m`-th is item `m + 1`. */
  lemma {:induction false} SelectorsAt(k: int, m: nat)
    requires m < |Selectors(k)|
    ensures Selectors(k)[m] == ItemSelector(m + 1)
    decreases if k > 0 then k else 0
  {
    assert k > 0 && Selectors(k) == Selectors(k - 1) + [ItemSelector(k)];
    if m < k - 1 {
      SelectorsAt(k - 1, m);
    }
  }

  /** The loop collecting the selectors of the revealed items. */
  method VisibilitySelectors(currentStep: int) returns (sels: seq<string>)
    ensures sels == Selectors(currentStep)
  {
    sels := [];
    var i := 1;
    while i <= currentStep
      invariant 1 <= i && (currentStep >= 1 ==> i <= currentStep + 1) && (currentStep < 1 ==> i == 1)
      invariant sels == Selectors(i - 1)
    {
      sels := sels + [ItemSelector(i)];
      i := i + 1;
    }
  }

  /** The rule forcing the revealed items visible; empty when nothing is revealed. */
  function VisibilityCss(sels: seq<string>): (css: string)
    ensures css == "" <==> sels == []
    ensures sels != [] ==> EndsWith(css, ForceVisible)
  {
    if |sels| > 0 then Join(sels, ", ") + ForceVisible else ""
  }

  /** A scene's visibility rule is empty exactly when its step is not positive. */
  lemma VisibilityCssEmpty(k: int)
    ensures VisibilityCss(Selectors(k)) == "" <==> k <= 0
  {
  }

  // ----- Scene pages -----

  /** `p` without its trailing '/'s. */
  function TrimTrailingSlashes(p: string): (r: string)
    ensures |r| <= |p| && r == p[..|r|]
    ensures r == [] || r[|r| - 1] != '/'
    ensures forall k :: |r| <= k < |p| ==> p[k] == '/'
  {
    if p != [] && p[|p| - 1] == '/' then TrimTrailingSlashes(p[..|p| - 1]) else p
  }

  /** The text after the last '/' of `p`. */
  function LastSegment(p: string): string
  {
    if p == [] || p[|p| - 1] == '/' then [] else LastSegment(p[..|p| - 1]) + [p[|p| - 1]]
  }

  /** The last segment holds no '/', ends `p`, and is all of `p` or follows a '/'. */
  lemma {:induction false} LastSegmentFacts(p: string)
    ensures var b := LastSegment(p);
      '/' !in b && |b| <= |p| && p[|p| - |b|..] == b && (|b| == |p| || p[|p| - |b| - 1] == '/')
  {
    if p != [] && p[|p| - 1] != '/' {
      var q := p[..|p| - 1];
      LastSegmentFacts(q);
      var b := LastSegment(q);
      assert LastSegment(p) == b + [p[|p| - 1]];
      assert p[|p| - 1 - |b|..|p| - 1] == q[|q| - |b|..];
      assert p[|p| - 1 - |b|..] == p[|p| - 1 - |b|..|p| - 1] + [p[|p| - 1]];
    }
  }

  /** `path.basename`: the last segment of `p` once its trailing '/'s are dropped. */
  function Basename(p: string): (b: string)
    ensures '/' !in b
  {
    LastSegmentFacts(TrimTrailingSlashes(p));
    LastSegment(TrimTrailingSlashes(p))
  }

  /** The base name ends the path up to its trailing '/'s and follows its last
      other '/', if any. */
  lemma BasenameOfPath(p: string)
    ensures var r := TrimTrailingSlashes(p);
      var b := Basename(p);
      |b| <= |r| && r[|r| - |b|..] == b && (|b| == |r| || r[|r| - |b| - 1] == '/') &&
      forall k :: |r| <= k < |p| ==> p[k] == '/'
  {
    var r := TrimTrailingSlashes(p);
    LastSegmentFacts(r);
    assert Basename(p) == LastSegment(r);
  }

  /** What a scene page shows besides its fixed template. */
  datatype ScenePage = ScenePage(
    index: nat,
    total: nat,
    step: int,
    prevLink: string,
    nextLink: string,
    customCss: string,
    visibilityCss: string,
    slideHtml: string,
    caption: string,
    audioPath: string)

  /** The page of scene `index` of `total`; a missing step index counts as step 0. */
  function ScenePageOf(index: nat, scene: Scene, total: nat): ScenePage
    requires index < total
  {
    ScenePage(index, total, scene.stepIndex, PrevLink(index, total), NextLink(index, total),
      scene.customCss, VisibilityCss(Selectors(scene.stepIndex)),
      OrElse(scene.slideHtml, NoSlideContent), scene.text, AudioDir + Basename(scene.audioUrl))
  }

  /** What a scene page promises: neighbours' pages or `#` at the ends, the revealed
      items forced visible, the slide or the placeholder, the audio beside the page. */
  lemma ScenePageFacts(index: nat, scene: Scene, total: nat, j: nat)
    requires index < total
    ensures var page := ScenePageOf(index, scene, total);
      (page.prevLink == "#" <==> index == 0) &&
      (page.nextLink == "#" <==> index == total - 1) &&
      (page.visibilityCss == "" <==> scene.stepIndex <= 0) &&
      (ItemSelector(j) in Selectors(page.step) <==> 1 <= j <= scene.stepIndex) &&
      (page.slideHtml == if scene.slideHtml == "" then NoSlideContent else scene.slideHtml) &&
      StartsWith(page.audioPath, AudioDir) && '/' !in page.audioPath[|AudioDir|..]
  {
    SelectorsExactly(scene.stepIndex, j);
    var page := ScenePageOf(index, scene, total);
    assert page.audioPath[|AudioDir|..] == Basename(scene.audioUrl);
  }

  /** `generateSceneHtml`. */
  method GenerateSceneHtml(index: nat, scene: Scene, total: nat) returns (page: ScenePage)
    requires index < total
    ensures page == ScenePageOf(index, scene, total)
  {
    var currentStep := scene.stepIndex;
    var slideHtml := OrElse(scene.slideHtml, NoSlideContent);
    var prevLink := PrevLink(index, total);
    var nextLink := NextLink(index, total);
    var sels := VisibilitySelectors(currentStep);
    var visibilityCss := VisibilityCss(sels);
    var audioPath := AudioDir + Basename(scene.audioUrl);
    page := ScenePage(index, total, currentStep, prevLink, nextLink, scene.customCss,
      visibilityCss, slideHtml, scene.text, audioPath);
  }

  /** The file the script writes for scene `i`: its name and its page. */
  function SceneFile(scenes: seq<Scene>, i: nat): (string, ScenePage)
    requires i < |scenes|
  {
    (SceneFileName(i), ScenePageOf(i, scenes[i], |scenes|))
  }

  lemma SceneFilesGrow(scenes: seq<Scene>, files: seq<(string, ScenePage)>, n: nat, file: (string, ScenePage))
    requires n < |scenes| && |files| == n
    requires forall i :: 0 <= i < n ==> files[i] == SceneFile(scenes, i)
    requires file == SceneFile(scenes, n)
    ensures forall i :: 0 <= i <= n ==> (files + [file])[i] == SceneFile(scenes, i)
  {
  }

  /** One page per scene, named after its index. */
  method GenerateScenePages(scenes: seq<Scene>) returns (files: seq<(string, ScenePage)>)
    ensures |files| == |scenes|
    ensures forall i :: 0 <= i < |scenes| ==> files[i] == SceneFile(scenes, i)
  {
    files := [];
    var idx := 0;
    while idx < |scenes|
      invariant idx <= |scenes| && |files| == idx
      invariant forall i :: 0 <= i < idx ==> files[i] == SceneFile(scenes, i)
    {
      var page := GenerateSceneHtml(idx, scenes[idx], |scenes|);
      SceneFilesGrow(scenes, files, idx, (SceneFileName(idx), page));
      files := files + [(SceneFileName(idx), page)];
      idx := idx + 1;
    }
  }

  // ----- The slide list -----

  function SlideIdOf(s: Scene): Option<string> { s.slideId }

  function Id(s: string): string { s }

  /** The slide ids the scenes carry, in scene order; scenes without one are skipped. */
  function PresentIds(scenes: seq<Scene>): (ids: seq<string>)
    ensures forall id :: id in ids <==> exists i :: 0 <= i < |scenes| && scenes[i].slideId == Some(id)
  {
    if scenes == [] then []
    else
      var pre := scenes[..|scenes| - 1];
      var last := scenes[|scenes| - 1];
      assert forall i :: 0 <= i < |pre| ==> pre[i] == scenes[i];
      PresentIds(pre) + match last.slideId { case Some(id) => [id] case None => [] }
  }

  /** Keeping the first of each string keeps every string. */
  lemma DedupIdMembers(xs: seq<string>, id: string)
    ensures id in DedupBy(xs, Id) <==> id in xs
  {
    var d := DedupBy(xs, Id);
    if id in d {
      var i :| 0 <= i < |d| && d[i] == id;
      assert Id(d[i]) == id;
    }
    if HasKey(d, Id, id) {
      var i :| 0 <= i < |d| && Id(d[i]) == id;
      assert d[i] == id;
    }
    if id in xs {
      var i :| 0 <= i < |xs| && xs[i] == id;
      assert Id(xs[i]) == id;
    }
    if HasKey(xs, Id, id) {
      var i :| 0 <= i < |xs| && Id(xs[i]) == id;
      assert xs[i] == id;
    }
  }

  /** Every slide id the scenes use, once each, in ascending order. */
  function UniqueSlideIds(scenes: seq<Scene>): (ids: seq<string>)
    ensures Sorted(ids)
    ensures forall i, j :: 0 <= i < j < |ids| ==> ids[i] != ids[j]
    ensures forall id :: id in ids <==> exists i :: 0 <= i < |scenes| && scenes[i].slideId == Some(id)
  {
    var present := PresentIds(scenes);
    var d := DedupBy(present, Id);
    var r := SortStrings(d);
    assert forall i, j :: 0 <= i < j < |d| ==> d[i] != d[j] by {
      forall i, j | 0 <= i < j < |d| ensures d[i] != d[j] {
        assert Id(d[i]) != Id(d[j]);
      }
    }
    PermutationKeepsDistinct(d, r);
    forall id ensures id in r <==> id in present {
      assert id in r <==> id in multiset(d);
      DedupIdMembers(present, id);
    }
    r
  }

  /** The ids as present ids. */
  function Wrap(ids: seq<string>): (list: seq<Option<string>>)
    ensures |list| == |ids| && forall k :: 0 <= k < |ids| ==> list[k] == Some(ids[k])
  {
    seq(|ids|, k requires 0 <= k < |ids| => Some(ids[k]))
  }

  /** The slide list as the script builds it from the set of the scenes' slide ids and
      its default sort: every id once in ascending order, and then, when some scene has
      no slide id, JavaScript's `undefined` once, since the sort moves it to the end. */
  function UniqueSlideList(scenes: seq<Scene>): seq<Option<string>>
  {
    Wrap(UniqueSlideIds(scenes)) + if HasKey(scenes, SlideIdOf, None) then [None] else []
  }

  /** The list holds exactly the scenes' `slideId` values, absent included. */
  lemma UniqueSlideListMembers(scenes: seq<Scene>, e: Option<string>)
    ensures e in UniqueSlideList(scenes) <==> exists i :: 0 <= i < |scenes| && scenes[i].slideId == e
  {
    var ids := UniqueSlideIds(scenes);
    var tail: seq<Option<string>> := if HasKey(scenes, SlideIdOf, None) then [None] else [];
    assert UniqueSlideList(scenes) == Wrap(ids) + tail;
    WrapMembers(ids, e);
    if e.Some? {
      assert e !in tail;
      assert e.value in ids <==> exists i :: 0 <= i < |scenes| && scenes[i].slideId == Some(e.value);
    } else {
      assert e !in Wrap(ids);
      if exists i :: 0 <= i < |scenes| && scenes[i].slideId == None {
        var i :| 0 <= i < |scenes| && scenes[i].slideId == None;
        assert SlideIdOf(scenes[i]) == None;
      }
    }
  }

  /** No entry is listed twice, and the absent id can only be last. */
  lemma UniqueSlideListShape(scenes: seq<Scene>)
    ensures var list := UniqueSlideList(scenes);
      (forall i, j :: 0 <= i < j < |list| ==> list[i] != list[j]) &&
      forall k :: 0 <= k < |list| && list[k] == None ==> k == |list| - 1
  {
    var ids := UniqueSlideIds(scenes);
    var list := UniqueSlideList(scenes);
    assert forall m :: 0 <= m < |ids| ==> list[m] == Some(ids[m]);
  }

  lemma WrapMembers(ids: seq<string>, e: Option<string>)
    ensures e in Wrap(ids) <==> e.Some? && e.value in ids
  {
    if e in Wrap(ids) {
      var k :| 0 <= k < |ids| && Wrap(ids)[k] == e;
    }
    if e.Some? && e.value in ids {
      var k :| 0 <= k < |ids| && ids[k] == e.value;
      assert Wrap(ids)[k] == e;
    }
  }

  /** Every listed entry is some scene's, so the search for its representative scene
      always succeeds. */
  lemma SlideListHasScenes(scenes: seq<Scene>, k: nat)
    requires k < |UniqueSlideList(scenes)|
    ensures HasKey(scenes, SlideIdOf, UniqueSlideList(scenes)[k])
  {
    var e := UniqueSlideList(scenes)[k];
    UniqueSlideListMembers(scenes, e);
    var i :| 0 <= i < |scenes| && scenes[i].slideId == e;
    assert SlideIdOf(scenes[i]) == e;
  }

  // ----- Slide previews -----

  /** An entry as a template shows it; the absent id shows as `undefined`. */
  function IdText(e: Option<string>): string
  {
    match e
    case Some(id) => id
    case None => "undefined"
  }

  function PreviewName(e: Option<string>): string
  {
    IdText(e) + "_preview.html"
  }

  /** A neighbour gets a link only when it is a non-empty id. */
  predicate Linkable(e: Option<string>)
  {
    e.Some? && e.value != ""
  }

  /** The slide the prev link of entry `k` leads to, if any. */
  function PrevSlide(list: seq<Option<string>>, k: nat): (prev: Option<string>)
    requires k < |list|
    ensures prev.Some? ==> k > 0 && list[k - 1] == prev
  {
    if k > 0 && Linkable(list[k - 1]) then list[k - 1] else None
  }

  /** The slide the next link of entry `k` leads to, if any. */
  function NextSlide(list: seq<Option<string>>, k: nat): (next: Option<string>)
    requires k < |list|
    ensures next.Some? ==> k < |list| - 1 && list[k + 1] == next
  {
    if k < |list| - 1 && Linkable(list[k + 1]) then list[k + 1] else None
  }

  /** A neighbour as the script holds it: `null` past either end of the list, else the
      entry, which may be `undefined`. */
  function RawPrev(list: seq<Option<string>>, k: nat): Option<Option<string>>
    requires k < |list|
  {
    if k > 0 then Some(list[k - 1]) else None
  }

  function RawNext(list: seq<Option<string>>, k: nat): Option<Option<string>>
    requires k < |list|
  {
    if k < |list| - 1 then Some(list[k + 1]) else None
  }

  /** A neighbour written into the page's script by a template literal: `null` and
      `undefined` become those words. */
  function TemplateText(raw: Option<Option<string>>): string
  {
    match raw
    case None => "null"
    case Some(e) => IdText(e)
  }

  /** The page an arrow key opens: the neighbour's preview whenever its text is
      non-empty, as the keyboard handler tests the quoted text, not the neighbour. */
  function KeyTarget(raw: Option<Option<string>>): Option<string>
  {
    var text := TemplateText(raw);
    if text != "" then Some(text + "_preview.html") else None
  }

  /** What a slide preview shows besides its fixed template: its links, and the pages
      the arrow keys open. */
  datatype PreviewPage = PreviewPage(
    title: string,
    slideHtml: string,
    customCss: string,
    prev: Option<string>,
    next: Option<string>,
    keyPrev: Option<string>,
    keyNext: Option<string>)

  /** The preview of entry `k`, filled from the first scene showing that slide. */
  function PreviewOf(scenes: seq<Scene>, list: seq<Option<string>>, k: nat): (page: PreviewPage)
    requires k < |list| && HasKey(scenes, SlideIdOf, list[k])
  {
    var rep := scenes[FirstIndex(scenes, SlideIdOf, list[k])];
    PreviewPage(IdText(list[k]), OrElse(rep.slideHtml, NoContent), rep.customCss,
      PrevSlide(list, k), NextSlide(list, k), KeyTarget(RawPrev(list, k)), KeyTarget(RawNext(list, k)))
  }

  /** The previews of the first `n` entries; an entry no scene shows is skipped. */
  function PreviewFiles(scenes: seq<Scene>, list: seq<Option<string>>, n: nat): seq<(string, PreviewPage)>
    requires n <= |list|
  {
    if n == 0 then []
    else
      PreviewFiles(scenes, list, n - 1) +
      if HasKey(scenes, SlideIdOf, list[n - 1])
      then [(PreviewName(list[n - 1]), PreviewOf(scenes, list, n - 1))]
      else []
  }

  /** When every entry is some scene's, entry `k` gets the `k`-th preview. */
  lemma {:induction false} PreviewFilesComplete(scenes: seq<Scene>, list: seq<Option<string>>, n: nat)
    requires n <= |list|
    requires forall k :: 0 <= k < n ==> HasKey(scenes, SlideIdOf, list[k])
    ensures |PreviewFiles(scenes, list, n)| == n
    ensures forall k :: 0 <= k < n ==> PreviewFiles(scenes, list, n)[k] == (PreviewName(list[k]), PreviewOf(scenes, list, k))
  {
    if n > 0 {
      PreviewFilesComplete(scenes, list, n - 1);
    }
  }

  /** A preview's content is that of the first scene showing its slide, or the
      placeholder; the first entry has no prev link and the last no next link; between
      them, a neighbour with a non-empty id is linked. */
  lemma PreviewFacts(scenes: seq<Scene>, list: seq<Option<string>>, k: nat)
    requires k < |list| && HasKey(scenes, SlideIdOf, list[k])
    ensures var page := PreviewOf(scenes, list, k);
      (exists i :: 0 <= i < |scenes| && scenes[i].slideId == list[k] &&
        (forall h :: 0 <= h < i ==> scenes[h].slideId != list[k]) &&
        page.slideHtml == OrElse(scenes[i].slideHtml, NoContent)) &&
      (k == 0 ==> page.prev == None) && (k == |list| - 1 ==> page.next == None) &&
      (0 < k && Linkable(list[k - 1]) ==> page.prev == list[k - 1]) &&
      (k < |list| - 1 && Linkable(list[k + 1]) ==> page.next == list[k + 1])
  {
    var i := FirstIndex(scenes, SlideIdOf, list[k]);
    assert scenes[i].slideId == list[k];
    assert forall h :: 0 <= h < i ==> SlideIdOf(scenes[h]) != list[k];
  }

  /** The loop writing one preview per listed entry. */
  method WritePreviews(scenes: seq<Scene>, list: seq<Option<string>>) returns (files: seq<(string, PreviewPage)>)
    ensures files == PreviewFiles(scenes, list, |list|)
  {
    files := [];
    var index := 0;
    while index < |list|
      invariant index <= |list| && files == PreviewFiles(scenes, list, index)
    {
      var slideId := list[index];
      if HasKey(scenes, SlideIdOf, slideId) {
        var rep := scenes[FirstIndex(scenes, SlideIdOf, slideId)];
        var prevSlide: Option<Option<string>> := if index > 0 then Some(list[index - 1]) else None;
        var nextSlide: Option<Option<string>> := if index < |list| - 1 then Some(list[index + 1]) else None;
        var page := PreviewPage(IdText(slideId), OrElse(rep.slideHtml, NoContent), rep.customCss,
          if prevSlide.Some? && Linkable(prevSlide.value) then prevSlide.value else None,
          if nextSlide.Some? && Linkable(nextSlide.value) then nextSlide.value else None,
          KeyTarget(prevSlide), KeyTarget(nextSlide));
        files := files + [(PreviewName(slideId), page)];
      }
      index := index + 1;
    }
  }

  /** The whole script after loading `data.json`: the scene pages, then one preview per
      entry of the slide list. */
  method GeneratePreviews(scenes: seq<Scene>) returns (sceneFiles: seq<(string, ScenePage)>, previewFiles: seq<(string, PreviewPage)>)
    ensures |sceneFiles| == |scenes|
    ensures forall i :: 0 <= i < |scenes| ==> sceneFiles[i] == SceneFile(scenes, i)
    ensures forall i, j :: 0 <= i < j < |sceneFiles| ==> sceneFiles[i].0 != sceneFiles[j].0
    ensures |previewFiles| == |UniqueSlideList(scenes)|
    ensures forall k :: 0 <= k < |previewFiles| ==>
      HasKey(scenes, SlideIdOf, UniqueSlideList(scenes)[k]) &&
      previewFiles[k] == (PreviewName(UniqueSlideList(scenes)[k]), PreviewOf(scenes, UniqueSlideList(scenes), k))
  {
    sceneFiles := GenerateScenePages(scenes);
    forall i, j | 0 <= i < j < |sceneFiles| ensures sceneFiles[i].0 != sceneFiles[j].0 {
      SceneFileNamesDistinct(i, j);
    }
    var list := UniqueSlideList(scenes);
    previewFiles := WritePreviews(scenes, list);
    forall k | 0 <= k < |list| ensures HasKey(scenes, SlideIdOf, list[k]) {
      SlideListHasScenes(scenes, k);
    }
    PreviewFilesComplete(scenes, list, |list|);
  }

  // ----- The absent slide id -----

  /** The title scene, which carries no slide id, puts JavaScript's `undefined` at the
      end of the slide list: it gets a preview, filled from the title scene, under the
      name `undefined_preview.html` a slide called `undefined` would have. */
  lemma TitleSceneBecomesSlide(scenes: seq<Scene>)
    requires |scenes| > 0 && scenes[0].slideId == None
    ensures UniqueSlideList(scenes) == Wrap(UniqueSlideIds(scenes)) + [None]
    ensures FirstIndex(scenes, SlideIdOf, None) == 0
  {
    assert SlideIdOf(scenes[0]) == None;
    AbsentIdListedLast(scenes);
  }

  /** The absent id's preview is written where a slide called `undefined` has its own. */
  lemma AbsentIdPreviewName()
    ensures PreviewName(None) == PreviewName(Some("undefined"))
  {
  }

  /** A scene without a slide id adds one entry after the ids. */
  lemma AbsentIdListedLast(scenes: seq<Scene>)
    requires HasKey(scenes, SlideIdOf, None)
    ensures UniqueSlideList(scenes) == Wrap(UniqueSlideIds(scenes)) + [None]
  {
  }

  /** With the list of present ids instead, each slide id gets exactly one preview,
      named after it, filled from the first scene showing it. */
  lemma CorrectedSlidePreviews(scenes: seq<Scene>)
    ensures var ids := UniqueSlideIds(scenes);
      var files := PreviewFiles(scenes, Wrap(ids), |ids|);
      |files| == |ids| &&
      forall k :: 0 <= k < |ids| ==> files[k].0 == ids[k] + "_preview.html"
  {
    var ids := UniqueSlideIds(scenes);
    var list := Wrap(ids);
    forall k | 0 <= k < |ids| ensures HasKey(scenes, SlideIdOf, list[k]) {
      assert ids[k] in ids;
      var i :| 0 <= i < |scenes| && scenes[i].slideId == Some(ids[k]);
      assert SlideIdOf(scenes[i]) == list[k];
    }
    PreviewFilesComplete(scenes, list, |ids|);
  }

  // ----- The arrow keys of a preview -----

  /** A preview name determines its entry's text. */
  lemma PreviewNameInjective(e: Option<string>, text: string)
    requires PreviewName(e) == text + "_preview.html"
    ensures IdText(e) == text
  {
    var a, b := IdText(e), text;
    assert |a| == |b|;
    assert forall i :: 0 <= i < |a| ==> a[i] == (a + "_preview.html")[i] == (b + "_preview.html")[i] == b[i];
  }

  /** On the last preview ArrowRight, and on the first ArrowLeft, opens
      `null_preview.html`, since the template writes the `null` neighbour as the text
      `null`. No preview has that name unless a slide is called `null`. */
  lemma ArrowKeysLeaveTheList(scenes: seq<Scene>, list: seq<Option<string>>)
    requires |list| > 0
    requires HasKey(scenes, SlideIdOf, list[|list| - 1]) && HasKey(scenes, SlideIdOf, list[0])
    ensures PreviewOf(scenes, list, |list| - 1).keyNext == Some("null_preview.html")
    ensures PreviewOf(scenes, list, 0).keyPrev == Some("null_preview.html")
    ensures forall j :: 0 <= j < |list| && list[j] != Some("null") ==> PreviewName(list[j]) != "null_preview.html"
  {
    forall j | 0 <= j < |list| && list[j] != Some("null")
      ensures PreviewName(list[j]) != "null_preview.html"
    {
      if PreviewName(list[j]) == "null_preview.html" {
        PreviewNameInjective(list[j], "null");
      }
    }
    assert TemplateText(None) == "null";
    assert KeyTarget(None) == Some("null" + "_preview.html");
    assert "null" + "_preview.html" == "null_preview.html";
    assert RawNext(list, |list| - 1) == None && RawPrev(list, 0) == None;
  }

  /** Next to the absent id the arrow key still opens `undefined_preview.html`, though
      no link is drawn there. */
  lemma ArrowKeyWithoutLink(scenes: seq<Scene>, list: seq<Option<string>>, k: nat)
    requires k + 1 < |list| && list[k + 1] == None && HasKey(scenes, SlideIdOf, list[k])
    ensures PreviewOf(scenes, list, k).next == None
    ensures PreviewOf(scenes, list, k).keyNext == Some("undefined_preview.html")
  {
    assert TemplateText(Some(None)) == "undefined";
    assert KeyTarget(Some(None)) == Some("undefined" + "_preview.html");
    assert "undefined" + "_preview.html" == "undefined_preview.html";
    assert RawNext(list, k) == Some(None);
  }

  /** The arrow keys as evidently intended: each opens the page its link leads to, and
      nothing where no link is drawn. */
  function CorrectedKeyTarget(link: Option<string>): Option<string>
  {
    if link.Some? then Some(PreviewName(link)) else None
  }

  /** With the corrected keys, on the slide list of a project the first preview's
      ArrowLeft and the last one's ArrowRight do nothing, and an arrow key opens the
      preview written for the neighbouring entry exactly when a link to it is drawn. */
  lemma CorrectedArrowKeysStayInList(scenes: seq<Scene>, k: nat)
    requires k < |UniqueSlideList(scenes)|
    ensures var list := UniqueSlideList(scenes);
      var files := PreviewFiles(scenes, list, |list|);
      var left := CorrectedKeyTarget(PrevSlide(list, k));
      var right := CorrectedKeyTarget(NextSlide(list, k));
      && |files| == |list|
      && (k == 0 ==> left == None)
      && (k == |list| - 1 ==> right == None)
      && (left.Some? ==> 0 < k && left.value == files[k - 1].0)
      && (right.Some? ==> k + 1 < |list| && right.value == files[k + 1].0)
      && (0 < k && Linkable(list[k - 1]) ==> left.Some?)
      && (k + 1 < |list| && Linkable(list[k + 1]) ==> right.Some?)
  {
    var list := UniqueSlideList(scenes);
    forall j | 0 <= j < |list| ensures HasKey(scenes, SlideIdOf, list[j]) {
      SlideListHasScenes(scenes, j);
    }
    PreviewFilesComplete(scenes, list, |list|);
  }
}
