/** Timeline assembly (`processProject` of the audio sync script): a project's script
    becomes one title scene plus one scene per section, contiguous caption windows,
    per-slide reveal step indices and the start frames of the step sections.

    The file system is an input: a project directory is the set of its files with
    their contents, the probe results of its audio files and the slide images already
    published for it. Audio lengths arrive as whole frames, `ceil(seconds * 30)`. */
module SyncAudio {
  import opened Common
  import opened Text
  import opened Collections
  import opened VideoTypes

  const Fps: nat := 30
  /** Seconds assumed for a missing audio file or a failed probe. */
  const FallbackSeconds: nat := 5
  const TitlePadFrames: nat := 15
  const SectionPadFrames: nat := 10
  /** The step counter shared by all sections that use the default slide. */
  const DefaultCounterKey: string := "default"

  const TitlePlaceholderUrl: string := "https://placehold.co/1080x1920/007ACC/FFFFFF/png?text=Title"
  const SlideMissingUrl: string := "https://placehold.co/1920x1080/CCCCCC/666666/png?text=Slide+Missing"

  /** What probing an existing audio file gave: a failure, or its length in frames. */
  datatype Probe = ProbeFailed | Measured(frames: nat)

  /** A project directory. `files` maps project-relative paths to contents, `audio`
      the files of assets/audio to their probe results, `publishedSlides` names the
      slide images under the project's public slides folder, and `input` is the
      parsed `customScript` of input.json (None when input.json is missing). */
  datatype ProjectDir = ProjectDir(
    files: map<string, string>,
    audio: map<string, Probe>,
    publishedSlides: set<string>,
    input: Option<Script>)

  /** The HTML and CSS of a loaded slide. */
  datatype SlideContent = SlideContent(html: string, css: string)

  /** What comes from outside the project: the randomly chosen background music ("" when
      there is none) and the files present in the working directory's assets folder. */
  datatype GlobalAssets = GlobalAssets(bgmUrl: string, files: set<string>)

  datatype SyncOutcome =
    | ProjectNotFound
    | InputMissing(project: string)
    | Synced(project: string, data: VideoData)

  // ----- Project folder resolution -----

  /** The project folder for `slug`: the entry named exactly `slug`, else the first
      listed entry that starts with `slug + "_"`, else none. */
  function ResolveProject(slug: string, listing: seq<string>): (r: Option<string>)
    ensures slug in listing ==> r == Some(slug)
    ensures slug !in listing ==>
      (r.None? <==> forall i :: 0 <= i < |listing| ==> !StartsWith(listing[i], slug + "_"))
    ensures slug !in listing && r.Some? ==>
      exists i :: (0 <= i < |listing| && listing[i] == r.value && StartsWith(r.value, slug + "_")
                   && forall j :: 0 <= j < i ==> !StartsWith(listing[j], slug + "_"))
  {
    if slug in listing then Some(slug)
    else
      var folders := Filter(listing, f => StartsWith(f, slug + "_"));
      if |folders| > 0 then
        FilterHead(listing, f => StartsWith(f, slug + "_"));
        Some(folders[0])
      else
        assert forall i :: 0 <= i < |listing| ==> !StartsWith(listing[i], slug + "_") by {
          forall i | 0 <= i < |listing|
            ensures !StartsWith(listing[i], slug + "_")
          {
            assert listing[i] in listing;
          }
        }
        None
  }

  // ----- Durations -----

  /** Frames of the audio file `name`: its probed length, or 5 seconds when the file
      is missing or the probe failed. */
  function AudioFrames(audio: map<string, Probe>, name: string): nat
  {
    if name in audio && audio[name].Measured? then audio[name].frames else FallbackSeconds * Fps
  }

  /** The title scene lasts its audio plus 15 frames (at least 15, and 165 without audio). */
  function TitleFrames(audio: map<string, Probe>): (f: nat)
    ensures f >= TitlePadFrames
    ensures "title.mp3" !in audio || audio["title.mp3"].ProbeFailed? ==> f == 165
  {
    AudioFrames(audio, "title.mp3") + TitlePadFrames
  }

  /** Section `i` lasts its audio `i.mp3` plus 10 frames (at least 10, 160 without audio). */
  function SectionFrames(audio: map<string, Probe>, i: nat): (f: nat)
    ensures f >= SectionPadFrames
    ensures var a := NatToString(i) + ".mp3"; a !in audio || audio[a].ProbeFailed? ==> f == 160
  {
    AudioFrames(audio, NatToString(i) + ".mp3") + SectionPadFrames
  }

  /** `ceil(frames / 30 * 1000)`: the shortest whole number of milliseconds that covers
      the frames. */
  function FramesToMs(frames: nat): (ms: nat)
    ensures ms * Fps >= frames * 1000
    ensures ms > 0 ==> (ms - 1) * Fps < frames * 1000
  {
    CeilDiv(frames * 1000, Fps)
  }

  /** Where section `i`'s caption starts: after the title and every earlier section. */
  function CaptionStart(audio: map<string, Probe>, i: nat): nat
  {
    if i == 0 then FramesToMs(TitleFrames(audio))
    else CaptionStart(audio, i - 1) + FramesToMs(SectionFrames(audio, i - 1))
  }

  // ----- Images -----

  function AssetUrl(project: string, file: string): string
  {
    "/generated_assets/" + project + "/" + file
  }

  /** The folders searched for images, in order. */
  const ImageDirs: seq<string> := ["assets/", "images/"]

  /** An image named `name` exists in the project's assets or images folder. */
  predicate ImageExists(files: map<string, string>, name: string)
  {
    exists d :: 0 <= d < |ImageDirs| && ImageDirs[d] + name in files
  }

  /** The first of `names` present in assets or images, if any. */
  function FirstExisting(files: map<string, string>, names: seq<string>): (r: Option<string>)
    ensures r.None? <==> forall a :: 0 <= a < |names| ==> !ImageExists(files, names[a])
    ensures r.Some? ==>
      exists a :: (0 <= a < |names| && names[a] == r.value && ImageExists(files, r.value)
                   && forall a' :: 0 <= a' < a ==> !ImageExists(files, names[a']))
  {
    if names == [] then None
    else if ImageExists(files, names[0]) then Some(names[0])
    else
      var r := FirstExisting(files, names[1..]);
      assert forall a :: 1 <= a < |names| ==> names[a] == names[1..][a - 1];
      r
  }

  /** The nested search of the source: for each name in order, each folder in order,
      stop at the first file that exists. */
  method PickImage(files: map<string, string>, names: seq<string>) returns (found: Option<string>)
    ensures found == FirstExisting(files, names)
  {
    found := None;
    var a := 0;
    while a < |names|
      invariant 0 <= a <= |names|
      invariant found.None?
      invariant FirstExisting(files, names) == FirstExisting(files, names[a..])
    {
      var d := 0;
      while d < |ImageDirs|
        invariant 0 <= d <= |ImageDirs|
        invariant found.None?
        invariant forall d' :: 0 <= d' < d ==> ImageDirs[d'] + names[a] !in files
      {
        if ImageDirs[d] + names[a] in files {
          found := Some(names[a]);
          break;
        }
        d := d + 1;
      }
      if found.Some? {
        assert ImageExists(files, names[a]);
        break;
      }
      assert names[a..][1..] == names[a + 1..];
      a := a + 1;
    }
  }

  function SectionImageNames(i: nat): seq<string>
  {
    ["section_" + PadStart(NatToString(i), 2, '0') + ".png", "scene_" + NatToString(i) + ".png"]
  }

  function TitleImageUrl(project: string, dir: ProjectDir): string
  {
    match FirstExisting(dir.files, ["title.png"])
    case Some(f) => AssetUrl(project, f)
    case None => TitlePlaceholderUrl
  }

  /** A slide section shows its published slide image or the "Slide Missing"
      placeholder; any other section shows its first existing image or the project's
      placeholder.png. */
  function SectionImageUrl(project: string, dir: ProjectDir, i: nat, section: Section): string
  {
    if section.kind == "slide" then
      var slideName := "slide_" + NatToString(i) + ".png";
      if slideName in dir.publishedSlides then AssetUrl(project, "slides/" + slideName)
      else SlideMissingUrl
    else
      match FirstExisting(dir.files, SectionImageNames(i))
      case Some(f) => AssetUrl(project, f)
      case None => AssetUrl(project, "placeholder.png")
  }

  /** The image step of the section loop. */
  method PickSectionImage(project: string, dir: ProjectDir, i: nat, section: Section)
    returns (imageUrl: string)
    ensures imageUrl == SectionImageUrl(project, dir, i, section)
  {
    if section.kind == "slide" {
      var slideName := "slide_" + NatToString(i) + ".png";
      if slideName in dir.publishedSlides {
        imageUrl := AssetUrl(project, "slides/" + slideName);
      } else {
        imageUrl := SlideMissingUrl;
      }
    } else {
      var found := PickImage(dir.files, SectionImageNames(i));
      if found.Some? {
        imageUrl := AssetUrl(project, found.value);
      } else {
        imageUrl := AssetUrl(project, "placeholder.png");
      }
    }
  }

  // ----- Slides and reveal steps -----

  /** A slide definition whose HTML and CSS files both exist. */
  predicate Loadable(files: map<string, string>, s: SlideDef)
  {
    s.html in files && s.css in files
  }

  /** The slide cache after loading `slides` in order: a later definition with the
      same id replaces an earlier one. */
  function SlideCache(slides: seq<SlideDef>, files: map<string, string>): map<string, SlideContent>
  {
    if slides == [] then map[]
    else
      var cache := SlideCache(slides[..|slides| - 1], files);
      var s := slides[|slides| - 1];
      if Loadable(files, s) then cache[s.id := SlideContent(files[s.html], files[s.css])] else cache
  }

  /** An id is cached iff some loadable definition has it, and its content is that of
      the LAST loadable definition with the id. */
  lemma {:induction false} SlideCacheLookup(slides: seq<SlideDef>, files: map<string, string>, id: string)
    ensures id in SlideCache(slides, files) <==>
      exists i :: 0 <= i < |slides| && slides[i].id == id && Loadable(files, slides[i])
    ensures id in SlideCache(slides, files) ==>
      exists i :: (0 <= i < |slides| && slides[i].id == id && Loadable(files, slides[i])
                   && SlideCache(slides, files)[id] == SlideContent(files[slides[i].html], files[slides[i].css])
                   && forall j :: i < j < |slides| ==> !(slides[j].id == id && Loadable(files, slides[j])))
  {
    if slides != [] {
      var pre := slides[..|slides| - 1];
      var s := slides[|slides| - 1];
      SlideCacheLookup(pre, files, id);
      assert forall i :: 0 <= i < |pre| ==> pre[i] == slides[i];
      if s.id == id && Loadable(files, s) {
        assert slides[|slides| - 1].id == id;
      } else if exists i :: 0 <= i < |slides| && slides[i].id == id && Loadable(files, slides[i]) {
        var i :| 0 <= i < |slides| && slides[i].id == id && Loadable(files, slides[i]);
        assert pre[i].id == id && Loadable(files, pre[i]);
      }
    }
  }

  /** The loop that fills the slide cache. */
  method LoadSlideCache(slides: seq<SlideDef>, files: map<string, string>)
    returns (cache: map<string, SlideContent>)
    ensures cache == SlideCache(slides, files)
  {
    cache := map[];
    var k := 0;
    while k < |slides|
      invariant 0 <= k <= |slides|
      invariant cache == SlideCache(slides[..k], files)
    {
      var s := slides[k];
      assert slides[..k + 1][..k] == slides[..k];
      if s.html in files && s.css in files {
        cache := cache[s.id := SlideContent(files[s.html], files[s.css])];
      }
      k := k + 1;
    }
    assert slides[..k] == slides;
  }

  /** The cache for a script: filled only when the script lists slide definitions. */
  function ScriptCache(script: Script, files: map<string, string>): map<string, SlideContent>
  {
    if script.slides.Some? then SlideCache(script.slides.value, files) else map[]
  }

  /** The template files used when the script defines no slides at all. */
  function TemplateFiles(template: string): (string, string)
  {
    if template != "" then ("slide_" + template + ".html", "slide_" + template + ".css")
    else ("slide.html", "slide.css")
  }

  /** The default slide: only for a script without a `slides` list, and only when both
      template files exist; so a script has a default slide or slide definitions,
      never both. */
  function DefaultSlide(script: Script, files: map<string, string>): (r: Option<SlideContent>)
    ensures r.Some? ==> script.slides.None? && ScriptCache(script, files) == map[]
    ensures r.Some? <==> (script.slides.None? && TemplateFiles(script.slideTemplate).0 in files
                          && TemplateFiles(script.slideTemplate).1 in files)
  {
    if script.slides.Some? then None
    else
      var (h, c) := TemplateFiles(script.slideTemplate);
      if h in files && c in files then Some(SlideContent(files[h], files[c])) else None
  }

  /** Section `s` uses a loaded slide of its own. */
  predicate UsesLoadedSlide(s: Section, cache: map<string, SlideContent>)
  {
    s.slideId.Some? && s.slideId.value != "" && s.slideId.value in cache
  }

  /** The step counter a section reads and advances: its slide's id, the shared
      default counter, or none at all. */
  function CounterKey(s: Section, cache: map<string, SlideContent>, hasDefault: bool): Option<string>
  {
    if UsesLoadedSlide(s, cache) then Some(s.slideId.value)
    else if hasDefault then Some(DefaultCounterKey)
    else None
  }

  /** How many of the first `n` sections are step sections counted under `key`. */
  function StepsBefore(sections: seq<Section>, cache: map<string, SlideContent>, hasDefault: bool,
                       key: string, n: nat): (c: nat)
    requires n <= |sections|
    ensures c <= n
  {
    if n == 0 then 0
    else
      StepsBefore(sections, cache, hasDefault, key, n - 1)
      + if CounterKey(sections[n - 1], cache, hasDefault) == Some(key) && sections[n - 1].step then 1 else 0
  }

  /** Section `i`'s reveal step: the number of step sections up to and including it
      that share its counter; 0 when it has no counter. */
  function StepIndex(sections: seq<Section>, cache: map<string, SlideContent>, hasDefault: bool, i: nat): nat
    requires i < |sections|
  {
    match CounterKey(sections[i], cache, hasDefault)
    case None => 0
    case Some(k) => StepsBefore(sections, cache, hasDefault, k, i + 1)
  }

  /** Counting is monotone: a later section never sees fewer steps under a key. */
  lemma {:induction false} StepsBeforeMonotone(sections: seq<Section>, cache: map<string, SlideContent>,
                                               hasDefault: bool, key: string, m: nat, n: nat)
    requires m <= n <= |sections|
    ensures StepsBefore(sections, cache, hasDefault, key, m) <= StepsBefore(sections, cache, hasDefault, key, n)
    decreases n - m
  {
    if m < n {
      StepsBeforeMonotone(sections, cache, hasDefault, key, m, n - 1);
    }
  }

  /** On one counter, a step section reveals one more item than every earlier section,
      a step section reveals at least one item, and a section never reveals fewer
      items than an earlier one. */
  lemma StepIndexAdvances(sections: seq<Section>, cache: map<string, SlideContent>, hasDefault: bool,
                          i: nat, i': nat)
    requires i < i' < |sections|
    requires CounterKey(sections[i], cache, hasDefault).Some?
    requires CounterKey(sections[i'], cache, hasDefault) == CounterKey(sections[i], cache, hasDefault)
    ensures sections[i].step ==> StepIndex(sections, cache, hasDefault, i) >= 1
    ensures sections[i'].step ==> StepIndex(sections, cache, hasDefault, i) < StepIndex(sections, cache, hasDefault, i')
    ensures StepIndex(sections, cache, hasDefault, i) <= StepIndex(sections, cache, hasDefault, i')
  {
    var k := CounterKey(sections[i], cache, hasDefault).value;
    StepsBeforeMonotone(sections, cache, hasDefault, k, i + 1, i');
  }

  /** A counter's value, 0 when unset. */
  function Get(counter: map<string, nat>, k: string): nat
  {
    if k in counter then counter[k] else 0
  }

  /** The step counters after the first `n` sections: a step section increments the
      counter of its key, nothing else touches the map. */
  function Counters(sections: seq<Section>, cache: map<string, SlideContent>, hasDefault: bool, n: nat)
    : map<string, nat>
    requires n <= |sections|
  {
    if n == 0 then map[]
    else
      var counter := Counters(sections, cache, hasDefault, n - 1);
      match CounterKey(sections[n - 1], cache, hasDefault)
      case Some(k) => if sections[n - 1].step then counter[k := Get(counter, k) + 1] else counter
      case None => counter
  }

  /** Each counter holds exactly the number of step sections counted under its key. */
  lemma {:induction false} CountersCountSteps(sections: seq<Section>, cache: map<string, SlideContent>,
                                              hasDefault: bool, n: nat, k: string)
    requires n <= |sections|
    ensures Get(Counters(sections, cache, hasDefault, n), k) == StepsBefore(sections, cache, hasDefault, k, n)
  {
    if n > 0 {
      CountersCountSteps(sections, cache, hasDefault, n - 1, k);
    }
  }

  /** The slide step of the section loop: pick the section's own slide or the default
      slide, read its counter (0 when unset), advance it for a step section. */
  method AttachSlide(sections: seq<Section>, cache: map<string, SlideContent>, default: Option<SlideContent>,
                     counter: map<string, nat>, i: nat)
    returns (slide: Option<SlideContent>, stepIndex: nat, counter': map<string, nat>)
    requires i < |sections|
    requires counter == Counters(sections, cache, default.Some?, i)
    ensures slide == (if UsesLoadedSlide(sections[i], cache) then Some(cache[sections[i].slideId.value]) else default)
    ensures stepIndex == StepIndex(sections, cache, default.Some?, i)
    ensures counter' == Counters(sections, cache, default.Some?, i + 1)
  {
    var section := sections[i];
    var key: Option<string> := None;
    slide := None;
    if section.slideId.Some? && section.slideId.value != "" && section.slideId.value in cache {
      slide := Some(cache[section.slideId.value]);
      key := Some(section.slideId.value);
    } else if default.Some? {
      slide := default;
      key := Some(DefaultCounterKey);
    }
    counter' := counter;
    stepIndex := 0;
    if key.Some? {
      var k := key.value;
      var currentCount := if k in counter then counter[k] else 0;
      CountersCountSteps(sections, cache, default.Some?, i + 1, k);
      if section.step {
        counter' := counter[k := currentCount + 1];
        stepIndex := currentCount + 1;
      } else {
        stepIndex := currentCount;
      }
    }
  }

  // ----- Scenes and captions -----

  function TitleScene(project: string, dir: ProjectDir, script: Script): Scene
  {
    Scene(
      kind := "",
      text := if script.title != "" then script.title else "Title",
      imageUrl := TitleImageUrl(project, dir),
      durationInFrames := TitleFrames(dir.audio),
      audioUrl := AssetUrl(project, "title.mp3"),
      highlight := [],
      step := false,
      slideHtml := "",
      customCss := "",
      stepIndex := 0,
      slideId := None)
  }

  /** The scene of section `i`: its own slide when loaded, else the default slide,
      else no slide; the step index of its counter. */
  function SectionScene(project: string, dir: ProjectDir, script: Script,
                        cache: map<string, SlideContent>, default: Option<SlideContent>, i: nat): Scene
    requires i < |script.sections|
  {
    var s := script.sections[i];
    var slide := if UsesLoadedSlide(s, cache) then Some(cache[s.slideId.value]) else default;
    Scene(
      kind := if s.kind != "" then s.kind else "image",
      text := s.text,
      imageUrl := SectionImageUrl(project, dir, i, s),
      durationInFrames := SectionFrames(dir.audio, i),
      audioUrl := AssetUrl(project, NatToString(i) + ".mp3"),
      highlight := if s.highlight.Some? then s.highlight.value else [],
      step := s.step,
      slideHtml := if slide.Some? then slide.value.html else "",
      customCss := if slide.Some? then slide.value.css else "",
      stepIndex := StepIndex(script.sections, cache, default.Some?, i),
      slideId := s.slideId)
  }

  function SectionCaption(audio: map<string, Probe>, script: Script, i: nat): Caption
    requires i < |script.sections|
  {
    var start := CaptionStart(audio, i);
    Caption(script.sections[i].text, start, start + FramesToMs(SectionFrames(audio, i)))
  }

  /** The title scene followed by the scenes of the first `n` sections. */
  function ScenesUpTo(project: string, dir: ProjectDir, script: Script,
                      cache: map<string, SlideContent>, default: Option<SlideContent>, n: nat): (scenes: seq<Scene>)
    requires n <= |script.sections|
    ensures |scenes| == n + 1
  {
    [TitleScene(project, dir, script)] + seq(n, SectionScenes(project, dir, script, cache, default))
  }

  /** Section `k`'s scene, as a function of `k`. */
  function SectionScenes(project: string, dir: ProjectDir, script: Script,
                         cache: map<string, SlideContent>, default: Option<SlideContent>): int --> Scene
  {
    k requires 0 <= k < |script.sections| => SectionScene(project, dir, script, cache, default, k)
  }

  /** The scenes of a project given its slide cache and default slide: the title
      scene, then one scene per section. */
  function ScenesWith(project: string, dir: ProjectDir, script: Script,
                      cache: map<string, SlideContent>, default: Option<SlideContent>): seq<Scene>
  {
    ScenesUpTo(project, dir, script, cache, default, |script.sections|)
  }

  /** The scenes of a project. */
  function Scenes(project: string, dir: ProjectDir, script: Script): seq<Scene>
  {
    ScenesWith(project, dir, script, ScriptCache(script, dir.files), DefaultSlide(script, dir.files))
  }

  /** The caption windows of the first `n` sections. */
  function Captions(audio: map<string, Probe>, script: Script, n: nat): (captions: seq<Caption>)
    requires n <= |script.sections|
    ensures |captions| == n
  {
    if n == 0 then [] else Captions(audio, script, n - 1) + [SectionCaption(audio, script, n - 1)]
  }

  /** The title step: the title scene, with the title image searched for in the
      project's folders. */
  method MakeTitleScene(project: string, dir: ProjectDir, script: Script) returns (scene: Scene)
    ensures scene == TitleScene(project, dir, script)
  {
    var titleImage := PickImage(dir.files, ["title.png"]);
    scene := Scene(
      kind := "",
      text := if script.title != "" then script.title else "Title",
      imageUrl := if titleImage.Some? then AssetUrl(project, titleImage.value) else TitlePlaceholderUrl,
      durationInFrames := TitleFrames(dir.audio),
      audioUrl := AssetUrl(project, "title.mp3"),
      highlight := [],
      step := false,
      slideHtml := "",
      customCss := "",
      stepIndex := 0,
      slideId := None);
  }

  /** The state of the section loop after its first `i` passes: the title scene and
      the scenes of the first `i` sections, their captions, the step counters and the
      millisecond cursor at the start of section `i`. */
  predicate LoopState(project: string, dir: ProjectDir, script: Script,
                      cache: map<string, SlideContent>, default: Option<SlideContent>, i: nat,
                      scenes: seq<Scene>, captions: seq<Caption>, counter: map<string, nat>, currentMs: nat)
  {
    && i <= |script.sections|
    && scenes == ScenesUpTo(project, dir, script, cache, default, i)
    && captions == Captions(dir.audio, script, i)
    && counter == Counters(script.sections, cache, default.Some?, i)
    && currentMs == CaptionStart(dir.audio, i)
  }

  /** The scene of section `i`, built as the loop body builds it: its image, its slide
      and step index, and the step counters advanced past it. */
  method MakeSectionScene(project: string, dir: ProjectDir, script: Script,
                          cache: map<string, SlideContent>, default: Option<SlideContent>,
                          counter: map<string, nat>, i: nat)
    returns (scene: Scene, counter': map<string, nat>)
    requires i < |script.sections|
    requires counter == Counters(script.sections, cache, default.Some?, i)
    ensures scene == SectionScene(project, dir, script, cache, default, i)
    ensures counter' == Counters(script.sections, cache, default.Some?, i + 1)
  {
    var section := script.sections[i];
    var imageUrl := PickSectionImage(project, dir, i, section);
    var slide, stepIndex;
    slide, stepIndex, counter' := AttachSlide(script.sections, cache, default, counter, i);
    scene := Scene(
      kind := if section.kind != "" then section.kind else "image",
      text := section.text,
      imageUrl := imageUrl,
      durationInFrames := SectionFrames(dir.audio, i),
      audioUrl := AssetUrl(project, NatToString(i) + ".mp3"),
      highlight := if section.highlight.Some? then section.highlight.value else [],
      step := section.step,
      slideHtml := if slide.Some? then slide.value.html else "",
      customCss := if slide.Some? then slide.value.css else "",
      stepIndex := stepIndex,
      slideId := section.slideId);
  }

  lemma ScenesUpToStep(project: string, dir: ProjectDir, script: Script,
                       cache: map<string, SlideContent>, default: Option<SlideContent>, i: nat)
    requires i < |script.sections|
    ensures ScenesUpTo(project, dir, script, cache, default, i + 1)
      == ScenesUpTo(project, dir, script, cache, default, i) + [SectionScene(project, dir, script, cache, default, i)]
  {
    SeqSnoc(i, SectionScenes(project, dir, script, cache, default));
  }

  lemma CaptionsStep(audio: map<string, Probe>, script: Script, i: nat)
    requires i < |script.sections|
    ensures CaptionStart(audio, i + 1) == CaptionStart(audio, i) + FramesToMs(SectionFrames(audio, i))
    ensures Captions(audio, script, i + 1) == Captions(audio, script, i)
      + [Caption(script.sections[i].text, CaptionStart(audio, i), CaptionStart(audio, i + 1))]
  {
  }

  /** One pass of the section loop's body: push the scene and the caption of section
      `i`, move the millisecond cursor past it and advance the step counters past it. */
  method SectionStep(project: string, dir: ProjectDir, script: Script,
                     cache: map<string, SlideContent>, default: Option<SlideContent>,
                     scenes: seq<Scene>, captions: seq<Caption>,
                     counter: map<string, nat>, currentMs: nat, i: nat)
    returns (scenes': seq<Scene>, captions': seq<Caption>, counter': map<string, nat>, nextMs: nat)
    requires i < |script.sections|
    requires LoopState(project, dir, script, cache, default, i, scenes, captions, counter, currentMs)
    ensures LoopState(project, dir, script, cache, default, i + 1, scenes', captions', counter', nextMs)
  {
    var scene;
    scene, counter' := MakeSectionScene(project, dir, script, cache, default, counter, i);
    var durationMs := FramesToMs(SectionFrames(dir.audio, i));
    var caption := Caption(script.sections[i].text, currentMs, currentMs + durationMs);
    ScenesUpToStep(project, dir, script, cache, default, i);
    CaptionsStep(dir.audio, script, i);
    assert caption == Caption(script.sections[i].text, CaptionStart(dir.audio, i), CaptionStart(dir.audio, i + 1));
    scenes' := scenes + [scene];
    captions' := captions + [caption];
    nextMs := currentMs + durationMs;
  }

  /** The section loop: pushes one scene and one caption per section, advancing the
      millisecond cursor and the per-slide step counters. Returns the final cursor. */
  method BuildTimeline(project: string, dir: ProjectDir, script: Script,
                       cache: map<string, SlideContent>, default: Option<SlideContent>)
    returns (scenes: seq<Scene>, captions: seq<Caption>, endMs: nat)
    ensures scenes == ScenesWith(project, dir, script, cache, default)
    ensures captions == Captions(dir.audio, script, |script.sections|)
    ensures endMs == CaptionStart(dir.audio, |script.sections|)
  {
    var counter: map<string, nat> := map[];
    endMs := FramesToMs(TitleFrames(dir.audio));
    var title := MakeTitleScene(project, dir, script);
    scenes := [title];
    captions := [];
    var i := 0;
    assert scenes == ScenesUpTo(project, dir, script, cache, default, 0);
    assert counter == Counters(script.sections, cache, default.Some?, 0);
    while i < |script.sections|
      invariant i <= |script.sections|
      invariant LoopState(project, dir, script, cache, default, i, scenes, captions, counter, endMs)
    {
      scenes, captions, counter, endMs := SectionStep(project, dir, script, cache, default, scenes, captions, counter, endMs, i);
      i := i + 1;
    }
  }

  // ----- Start frames of the step sections -----

  /** The scene indices of the step sections (section `j` is scene `j + 1`), ascending. */
  function StepScenes(sections: seq<Section>): (idx: seq<nat>)
    ensures forall m :: 0 <= m < |idx| ==> 1 <= idx[m] <= |sections| && sections[idx[m] - 1].step
    ensures forall m, m' :: 0 <= m < m' < |idx| ==> idx[m] < idx[m']
    ensures forall j :: 0 <= j < |sections| && sections[j].step ==> j + 1 in idx
  {
    if sections == [] then []
    else
      var pre := StepScenes(sections[..|sections| - 1]);
      assert forall j :: 0 <= j < |sections| - 1 ==> sections[..|sections| - 1][j] == sections[j];
      if sections[|sections| - 1].step then pre + [|sections|] else pre
  }

  /** The start frame of each scene listed in `idx`. */
  function StartFrames(durations: seq<int>, idx: seq<nat>): (fs: seq<int>)
    requires forall m :: 0 <= m < |idx| ==> idx[m] <= |durations|
    ensures |fs| == |idx|
    ensures forall m :: 0 <= m < |idx| ==> fs[m] == PrefixSum(durations, idx[m])
  {
    if idx == [] then []
    else StartFrames(durations, idx[..|idx| - 1]) + [PrefixSum(durations, idx[|idx| - 1])]
  }

  lemma StepScenesSnoc(sections: seq<Section>, n: nat)
    requires n < |sections|
    ensures StepScenes(sections[..n + 1]) == StepScenes(sections[..n]) + (if sections[n].step then [n + 1] else [])
  {
    var s := sections[..n + 1];
    assert s[..|s| - 1] == sections[..n];
  }

  lemma StartFramesSnoc(durations: seq<int>, idx: seq<nat>, x: nat)
    requires forall m :: 0 <= m < |idx| ==> idx[m] <= |durations|
    requires x <= |durations|
    ensures StartFrames(durations, idx + [x]) == StartFrames(durations, idx) + [PrefixSum(durations, x)]
  {
    assert (idx + [x])[..|idx|] == idx;
  }

  /** Taking in one more section appends its scene's start frame when it is a step
      section, and nothing otherwise. */
  lemma StepFramesSnoc(durations: seq<int>, sections: seq<Section>, n: nat)
    requires n < |sections| < |durations|
    ensures StartFrames(durations, StepScenes(sections[..n + 1]))
      == StartFrames(durations, StepScenes(sections[..n])) + (if sections[n].step then [PrefixSum(durations, n + 1)] else [])
  {
    StepScenesSnoc(sections, n);
    var pre := StepScenes(sections[..n]);
    if sections[n].step {
      StartFramesSnoc(durations, pre, n + 1);
    } else {
      assert pre + [] == pre;
      assert StartFrames(durations, pre) + [] == StartFrames(durations, pre);
    }
  }

  /** The `slideSteps` pass: walk the scenes, accumulating frames, and record the
      current frame at every step section. */
  method CollectSlideSteps(scenes: seq<Scene>, sections: seq<Section>) returns (slideSteps: seq<int>)
    requires |scenes| == |sections| + 1
    ensures slideSteps == StartFrames(Durations(scenes), StepScenes(sections))
  {
    var durations := Durations(scenes);
    slideSteps := [];
    var currentFrame := 0;
    var index := 0;
    assert sections[..0] == [];
    while index < |scenes|
      invariant 0 <= index <= |scenes|
      invariant currentFrame == PrefixSum(durations, index)
      invariant slideSteps == StartFrames(durations, StepScenes(sections[..if index > 0 then index - 1 else 0]))
    {
      if index > 0 {
        var sectionIndex := index - 1;
        StepFramesSnoc(durations, sections, sectionIndex);
        if sections[sectionIndex].step {
          slideSteps := slideSteps + [currentFrame];
        }
      }
      PrefixSumStep(durations, index);
      currentFrame := currentFrame + scenes[index].durationInFrames;
      index := index + 1;
    }
    assert sections[..index - 1] == sections;
  }

  // ----- The whole pass -----

  /** The `data.json` written for project folder `project` with script `script`. */
  function SyncData(project: string, dir: ProjectDir, script: Script, globals: GlobalAssets): VideoData
  {
    var default := DefaultSlide(script, dir.files);
    var scenes := Scenes(project, dir, script);
    VideoData(
      bgmUrl := globals.bgmUrl,
      scenes := scenes,
      captions := Captions(dir.audio, script, |script.sections|),
      durationInFrames := CeilDiv(CaptionStart(dir.audio, |script.sections|) * Fps, 1000),
      titleSplit := script.titleSplit,
      backgroundImageUrl := if "background.png" in globals.files then AssetUrl(project, "background.png") else "",
      characterImageUrl := if "character.png" in globals.files then AssetUrl(project, "character.png") else "",
      slideHtml := if default.Some? then default.value.html else "",
      customCss := if default.Some? then default.value.css else "",
      slideSteps := Some(StartFrames(Durations(scenes), StepScenes(script.sections))))
  }

  /** What one `processProject` call produces. */
  function Sync(slug: string, listing: seq<string>, dirs: map<string, ProjectDir>, globals: GlobalAssets): SyncOutcome
  {
    match ResolveProject(slug, listing)
    case None => ProjectNotFound
    case Some(p) =>
      if p !in dirs || dirs[p].input.None? then InputMissing(p)
      else Synced(p, SyncData(p, dirs[p], dirs[p].input.value, globals))
  }

  /** `processProject`: resolve the folder, require input.json, load the slides,
      build scenes and captions, then the step frames. */
  method ProcessProject(slug: string, listing: seq<string>, dirs: map<string, ProjectDir>, globals: GlobalAssets)
    returns (outcome: SyncOutcome)
    ensures outcome == Sync(slug, listing, dirs, globals)
  {
    var resolved := ResolveProject(slug, listing);
    if resolved.None? {
      return ProjectNotFound;
    }
    var p := resolved.value;
    if p !in dirs || dirs[p].input.None? {
      return InputMissing(p);
    }
    var dir := dirs[p];
    var script := dir.input.value;
    var cache: map<string, SlideContent> := map[];
    if script.slides.Some? {
      cache := LoadSlideCache(script.slides.value, dir.files);
    }
    var default := DefaultSlide(script, dir.files);
    var scenes, captions, endMs := BuildTimeline(p, dir, script, cache, default);
    var slideSteps := CollectSlideSteps(scenes, script.sections);
    outcome := Synced(p, VideoData(
      bgmUrl := globals.bgmUrl,
      scenes := scenes,
      captions := captions,
      durationInFrames := CeilDiv(endMs * Fps, 1000),
      titleSplit := script.titleSplit,
      backgroundImageUrl := if "background.png" in globals.files then AssetUrl(p, "background.png") else "",
      characterImageUrl := if "character.png" in globals.files then AssetUrl(p, "character.png") else "",
      slideHtml := if default.Some? then default.value.html else "",
      customCss := if default.Some? then default.value.css else "",
      slideSteps := Some(slideSteps)));
  }

  // ----- Properties of the timeline -----

  lemma ScenesUpToAt(project: string, dir: ProjectDir, script: Script,
                     cache: map<string, SlideContent>, default: Option<SlideContent>,
                     n: nat, t: nat)
    requires t <= n <= |script.sections|
    ensures ScenesUpTo(project, dir, script, cache, default, n)[t]
      == if t == 0 then TitleScene(project, dir, script) else SectionScene(project, dir, script, cache, default, t - 1)
  {
  }

  lemma {:induction false} CaptionsAt(audio: map<string, Probe>, script: Script, n: nat, j: nat)
    requires j < n <= |script.sections|
    ensures Captions(audio, script, n)[j] == SectionCaption(audio, script, j)
  {
    if j < n - 1 {
      CaptionsAt(audio, script, n - 1, j);
    }
  }

  /** Scene `t` lasts the title's frames (t = 0) or section `t - 1`'s frames; so
      every scene lasts at least 10 frames. */
  lemma SceneDurations(project: string, dir: ProjectDir, script: Script, t: nat)
    requires t < |script.sections| + 1
    ensures Durations(Scenes(project, dir, script))[t]
      == if t == 0 then TitleFrames(dir.audio) else SectionFrames(dir.audio, t - 1)
    ensures Durations(Scenes(project, dir, script))[t] >= SectionPadFrames
  {
    var cache := ScriptCache(script, dir.files);
    var default := DefaultSlide(script, dir.files);
    var scenes := Scenes(project, dir, script);
    ScenesUpToAt(project, dir, script, cache, default, |script.sections|, t);
  }

  /** The frames of the title and of the first `i` sections. */
  function FramesBefore(audio: map<string, Probe>, i: nat): nat
  {
    if i == 0 then TitleFrames(audio) else FramesBefore(audio, i - 1) + SectionFrames(audio, i - 1)
  }

  /** A scene's milliseconds cover its frames and exceed them by less than one
      millisecond. */
  lemma FramesToMsBounds(frames: nat)
    ensures frames * 1000 <= FramesToMs(frames) * 30 < frames * 1000 + 30
  {
    var ms := FramesToMs(frames);
    if ms > 0 {
      assert (ms - 1) * 30 < frames * 1000;
    }
  }

  /** Caption time tracks scene time: before section `i` the caption cursor is never
      behind the frames so far, and ahead of them by less than a millisecond per scene
      (each scene's milliseconds are rounded up on their own). */
  lemma {:induction false} CaptionStartBounds(audio: map<string, Probe>, i: nat)
    ensures FramesBefore(audio, i) * 1000 <= CaptionStart(audio, i) * 30
    ensures CaptionStart(audio, i) * 30 < FramesBefore(audio, i) * 1000 + 30 * (i + 1)
  {
    if i > 0 {
      CaptionStartBounds(audio, i - 1);
      FramesToMsBounds(SectionFrames(audio, i - 1));
    } else {
      FramesToMsBounds(TitleFrames(audio));
    }
  }

  /** Running sums of a title duration followed by the section durations are
      `FramesBefore`. */
  lemma {:induction false} PrefixFramesOf(audio: map<string, Probe>, d: seq<int>, i: nat)
    requires i < |d|
    requires d[0] == TitleFrames(audio)
    requires forall t :: 1 <= t < |d| ==> d[t] == SectionFrames(audio, t - 1)
    ensures PrefixSum(d, i + 1) == FramesBefore(audio, i)
  {
    PrefixSumStep(d, i);
    if i == 0 {
      assert d[..0] == [];
    } else {
      PrefixFramesOf(audio, d, i - 1);
    }
  }

  /** The scenes' running frame total is `FramesBefore`. */
  lemma ScenePrefixFrames(project: string, dir: ProjectDir, script: Script, i: nat)
    requires i <= |script.sections|
    ensures PrefixSum(Durations(Scenes(project, dir, script)), i + 1) == FramesBefore(dir.audio, i)
  {
    var d := Durations(Scenes(project, dir, script));
    forall t | 0 <= t < |d|
      ensures d[t] == if t == 0 then TitleFrames(dir.audio) else SectionFrames(dir.audio, t - 1)
    {
      SceneDurations(project, dir, script, t);
    }
    PrefixFramesOf(dir.audio, d, i);
  }

  /** The first caption of a synced project starts when the title scene ends, in
      whole milliseconds. */
  lemma FirstCaptionAfterTitle(project: string, dir: ProjectDir, script: Script, globals: GlobalAssets)
    requires |script.sections| > 0
    ensures SyncData(project, dir, script, globals).captions[0].startMs == FramesToMs(TitleFrames(dir.audio))
  {
    CaptionsAt(dir.audio, script, |script.sections|, 0);
  }

  /** Each caption of a synced project ends where the next one starts. */
  lemma CaptionsContiguous(project: string, dir: ProjectDir, script: Script, globals: GlobalAssets, i: nat)
    requires i + 1 < |script.sections|
    ensures var captions := SyncData(project, dir, script, globals).captions;
      captions[i].endMs == captions[i + 1].startMs
  {
    CaptionsAt(dir.audio, script, |script.sections|, i);
    CaptionsAt(dir.audio, script, |script.sections|, i + 1);
  }

  /** Each caption lasts at least as long as its scene. */
  lemma CaptionCoversScene(project: string, dir: ProjectDir, script: Script, globals: GlobalAssets, i: nat)
    requires i < |script.sections|
    ensures var data := SyncData(project, dir, script, globals);
      (data.captions[i].endMs - data.captions[i].startMs) * Fps >= data.scenes[i + 1].durationInFrames * 1000
  {
    SceneDurations(project, dir, script, i + 1);
    CaptionsAt(dir.audio, script, |script.sections|, i);
    FramesToMsBounds(SectionFrames(dir.audio, i));
  }

  /** No caption starts before its scene does. */
  lemma CaptionNotBeforeScene(project: string, dir: ProjectDir, script: Script, globals: GlobalAssets, i: nat)
    requires i < |script.sections|
    ensures var data := SyncData(project, dir, script, globals);
      data.captions[i].startMs * Fps >= PrefixSum(Durations(data.scenes), i + 1) * 1000
  {
    CaptionStartBounds(dir.audio, i);
    ScenePrefixFrames(project, dir, script, i);
    CaptionsAt(dir.audio, script, |script.sections|, i);
  }

  /** The video is long enough for every scene, and longer than them by less than one
      frame plus the accumulated millisecond rounding. */
  lemma TimelineCoversScenes(project: string, dir: ProjectDir, script: Script, globals: GlobalAssets)
    ensures var data := SyncData(project, dir, script, globals);
      var total := Sum(Durations(data.scenes));
      && total <= data.durationInFrames
      && data.durationInFrames * 1000 < total * 1000 + Fps * |data.scenes| + 1000
  {
    var n := |script.sections|;
    var d := Durations(Scenes(project, dir, script));
    CaptionStartBounds(dir.audio, n);
    ScenePrefixFrames(project, dir, script, n);
    assert d[..n + 1] == d;
    var a := CaptionStart(dir.audio, n) * Fps;
    var q := CeilDiv(a, 1000);
    assert q * 1000 >= a;
  }

  /** The recorded step frames strictly increase, and each is where a step section's
      scene starts. */
  lemma SlideStepsIncrease(project: string, dir: ProjectDir, script: Script, globals: GlobalAssets, m: nat, m': nat)
    requires m < m' < |StepScenes(script.sections)|
    ensures var data := SyncData(project, dir, script, globals);
      var steps := data.slideSteps.value;
      var t := StepScenes(script.sections)[m];
      && steps[m] < steps[m']
      && script.sections[t - 1].step && steps[m] == PrefixSum(Durations(data.scenes), t)
  {
    var scenes := Scenes(project, dir, script);
    var idx := StepScenes(script.sections);
    forall t | 0 <= t < |scenes|
      ensures Durations(scenes)[t] > 0
    {
      SceneDurations(project, dir, script, t);
    }
    PrefixSumMonotone(Durations(scenes), idx[m], idx[m']);
  }
}
