// The video composition (src/components/MarpExperiment.tsx): the background music, one
// audio clip and one slide per scene, each placed at the frame where its scene starts.

module MarpExperiment {
  import opened Common
  import opened Text
  import opened Collections
  import opened VideoTypes
  import opened MarpReactSlide
  import HtmlPreviews

  /** Where a media source is loaded from: a remote URL as given, or a file of the
      public folder, by its path relative to that folder (`staticFile`). */
  datatype Source = Remote(url: string) | Static(path: string)

  /** `resolveSrc`: URLs starting with `http` pass through; any other source loses
      exactly one leading '/', if it has one, and names a public file. */
  function ResolveSrc(src: string): (r: Source)
    ensures r.Remote? <==> StartsWith(src, "http")
    ensures r.Remote? ==> r.url == src
    ensures r.Static? && StartsWith(src, "/") ==> src == "/" + r.path
    ensures r.Static? && !StartsWith(src, "/") ==> r.path == src
  {
    if StartsWith(src, "http") then Remote(src)
    else Static(if StartsWith(src, "/") then src[1..] else src)
  }

  /** Only one '/' is stripped: a source starting with two keeps the second. */
  lemma ResolveSrcStripsOnce(src: string)
    requires StartsWith(src, "//")
    ensures ResolveSrc(src) == Static(src[1..]) && StartsWith(ResolveSrc(src).path, "/")
  {
    assert src[..1] == "/";
    assert !StartsWith(src, "http") by {
      assert src[0] == '/';
    }
  }

  // ----- Scene start frames -----

  /** The `sceneStartFrames` loop: each scene starts where the scenes before it end;
      `total` is where the last one ends. */
  method SceneStartFrames(scenes: seq<Scene>) returns (starts: seq<int>, total: int)
    ensures |starts| == |scenes|
    ensures forall i :: 0 <= i < |scenes| ==> starts[i] == PrefixSum(Durations(scenes), i)
    ensures total == Sum(Durations(scenes))
  {
    ghost var ds := Durations(scenes);
    starts := [];
    total := 0;
    var i := 0;
    while i < |scenes|
      invariant 0 <= i <= |scenes| && |starts| == i
      invariant forall j :: 0 <= j < i ==> starts[j] == PrefixSum(ds, j)
      invariant total == PrefixSum(ds, i)
    {
      starts := starts + [total];
      PrefixSumStep(ds, i);
      total := total + scenes[i].durationInFrames;
      i := i + 1;
    }
    assert ds[..|ds|] == ds;
  }

  /** The first scene starts at frame 0, each next one where the previous ends, and
      with non-negative durations the start frames never decrease. */
  lemma StartFramesChain(scenes: seq<Scene>, i: nat, j: nat)
    requires i <= j < |scenes|
    ensures PrefixSum(Durations(scenes), 0) == 0
    ensures j == i + 1 ==>
      PrefixSum(Durations(scenes), j) == PrefixSum(Durations(scenes), i) + scenes[i].durationInFrames
    ensures (forall k :: 0 <= k < |scenes| ==> scenes[k].durationInFrames >= 0) ==>
      PrefixSum(Durations(scenes), i) <= PrefixSum(Durations(scenes), j)
  {
    var ds := Durations(scenes);
    assert ds[..0] == [];
    if j == i + 1 {
      PrefixSumStep(ds, i);
    }
    if forall k :: 0 <= k < |scenes| ==> scenes[k].durationInFrames >= 0 {
      PrefixSumMonotone(ds, i, j);
    }
  }

  // ----- What each scene's slide receives -----

  /** `steps`: the data's slide steps when there are any, otherwise none. */
  function DataSteps(data: VideoData): (steps: seq<int>)
    ensures steps != [] ==> data.slideSteps == Some(steps)
    ensures steps == [] <==> data.slideSteps == None || data.slideSteps == Some([])
  {
    if data.slideSteps.Some? && |data.slideSteps.value| > 0 then data.slideSteps.value else []
  }

  /** The props a scene's slide gets as the composition passes them: the scene's HTML,
      else the project's, else `''`; the scene's CSS, else the project's. The step index
      is passed as `stepIndex`, which the slide does not declare, so it is lost, and
      neither `steps` nor `highlightStep` is set. */
  function SceneProps(scene: Scene, data: VideoData): Props
  {
    Props(Some(OrElse(scene.slideHtml, OrElse(data.slideHtml, ""))),
      Some(OrElse(scene.customCss, data.customCss)), None, None)
  }

  /** A scene's slide shows the scene's own HTML and CSS when it has them and the
      project's otherwise; its style reveals nothing on any frame. */
  lemma ScenePropsFallbacks(scene: Scene, data: VideoData, frame: int)
    ensures var r := Render(SceneProps(scene, data), frame);
      (scene.slideHtml != "" ==> r.html == scene.slideHtml) &&
      (scene.slideHtml == "" ==> r.html == data.slideHtml) &&
      (r.customStyle.Some? <==> scene.customCss != "" || data.customCss != "") &&
      (scene.customCss != "" ==> r.customStyle == Some(scene.customCss)) &&
      r.dynamicStyle == ""
  {
  }

  /** On a scene at step one or more, the HTML preview shows item 1 while the video's
      slide never reveals it. */
  lemma VideoHidesWhatPreviewShows(scene: Scene, data: VideoData, frame: int)
    requires scene.stepIndex >= 1
    ensures HtmlPreviews.ItemSelector(1) in HtmlPreviews.Selectors(scene.stepIndex)
    ensures ItemRule(1) !in ItemRules(StepsOf(SceneProps(scene, data)), frame)
  {
    HtmlPreviews.SelectorsExactly(scene.stepIndex, 1);
    ItemRevealed(StepsOf(SceneProps(scene, data)), frame, 1);
  }

  /** The props the slide is evidently meant to get: as many steps as the scene's step
      index, each reached from the scene's first frame on. */
  function CorrectedSceneProps(scene: Scene, data: VideoData): Props
  {
    var k := if scene.stepIndex > 0 then scene.stepIndex else 0;
    Props(Some(OrElse(scene.slideHtml, OrElse(data.slideHtml, ""))),
      Some(OrElse(scene.customCss, data.customCss)), Some(seq(k, _ => 0)), None)
  }

  /** With the corrected props, on every frame of the scene the slide reveals exactly the
      items the scene's HTML preview shows: items 1 to the step index. */
  lemma CorrectedSlideMatchesPreview(scene: Scene, data: VideoData, frame: nat, j: nat)
    ensures ItemRule(j) in ItemRules(StepsOf(CorrectedSceneProps(scene, data)), frame)
      <==> HtmlPreviews.ItemSelector(j) in HtmlPreviews.Selectors(scene.stepIndex)
  {
    ItemRevealed(StepsOf(CorrectedSceneProps(scene, data)), frame, j);
    HtmlPreviews.SelectorsExactly(scene.stepIndex, j);
  }

  // ----- The composition -----

  /** A clip placed on the timeline. */
  datatype Clip = Clip(from: int, duration: int, source: Source)

  /** A scene's slide placed on the timeline. */
  datatype SlideSequence = SlideSequence(from: int, duration: int, props: Props)

  datatype Composition = Composition(
    bgm: Option<Source>,
    audio: seq<Option<Clip>>,
    slides: seq<SlideSequence>)

  /** A scene's voice clip; none when the scene has no audio. */
  function AudioClip(scene: Scene, from: int): Option<Clip>
  {
    if scene.audioUrl == "" then None
    else Some(Clip(from, scene.durationInFrames, ResolveSrc(scene.audioUrl)))
  }

  /** Each scene's voice clip, placed at its start frame. */
  function AudioTrack(scenes: seq<Scene>, starts: seq<int>): (track: seq<Option<Clip>>)
    requires |starts| == |scenes|
    ensures |track| == |scenes|
    ensures forall i :: 0 <= i < |scenes| ==> track[i] == AudioClip(scenes[i], starts[i])
  {
    seq(|scenes|, i requires 0 <= i < |scenes| => AudioClip(scenes[i], starts[i]))
  }

  /** Each scene's slide, placed at its start frame for as long as the scene lasts. */
  function SlideTrack(data: VideoData, starts: seq<int>): (track: seq<SlideSequence>)
    requires |starts| == |data.scenes|
    ensures |track| == |data.scenes|
    ensures forall i :: 0 <= i < |data.scenes| ==>
      track[i] == SlideSequence(starts[i], data.scenes[i].durationInFrames, SceneProps(data.scenes[i], data))
  {
    seq(|data.scenes|, i requires 0 <= i < |data.scenes| =>
      SlideSequence(starts[i], data.scenes[i].durationInFrames, SceneProps(data.scenes[i], data)))
  }

  /** `MarpExperiment`: the music when there is any, and for every scene its clip and its
      slide, starting where the scenes before it end and lasting as long as the scene. */
  method Compose(data: VideoData) returns (c: Composition)
    ensures c.bgm.Some? <==> data.bgmUrl != ""
    ensures c.bgm.Some? ==> c.bgm.value == ResolveSrc(data.bgmUrl)
    ensures |c.audio| == |data.scenes| && |c.slides| == |data.scenes|
    ensures forall i :: 0 <= i < |data.scenes| ==>
      c.audio[i] == AudioClip(data.scenes[i], PrefixSum(Durations(data.scenes), i))
    ensures forall i :: 0 <= i < |data.scenes| ==>
      c.slides[i] == SlideSequence(PrefixSum(Durations(data.scenes), i), data.scenes[i].durationInFrames,
        SceneProps(data.scenes[i], data))
  {
    var starts, _ := SceneStartFrames(data.scenes);
    var bgm := if data.bgmUrl != "" then Some(ResolveSrc(data.bgmUrl)) else None;
    c := Composition(bgm, AudioTrack(data.scenes, starts), SlideTrack(data, starts));
  }
}
