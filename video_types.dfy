/** The records the pipeline passes between its scripts: the script a project is
    written as (`input.json`'s `customScript`) and the timeline `sync_audio` derives
    from it (`data.json`, typed as `VideoData` in src/types.ts).

    Optional string fields that every reader only tests for truthiness are plain
    strings here, with "" standing for "absent"; `slideId` stays optional because the
    preview script tells `undefined` apart from every string. */
module VideoTypes {
  import opened Common

  /** A slide definition: an id and the paths of its HTML and CSS files. */
  datatype SlideDef = SlideDef(id: string, html: string, css: string)

  /** One narrated section of a script. `kind` is the section's `type`, `step` the
      truthiness of its `step` flag. */
  datatype Section = Section(
    text: string,
    speechText: string,
    kind: string,
    slideId: Option<string>,
    step: bool,
    highlight: Option<seq<string>>)

  /** `customScript`: title, optional title split, optional slide definitions or a
      slide template name, and the sections in narration order. */
  datatype Script = Script(
    title: string,
    titleSpeech: string,
    titleSplit: Option<seq<string>>,
    slides: Option<seq<SlideDef>>,
    slideTemplate: string,
    sections: seq<Section>)

  /** A whole `input.json`: project name, theme, the script, and the top-level slide
      list that the validator reads. */
  datatype InputJson = InputJson(
    projectName: string,
    theme: string,
    script: Script,
    slides: Option<seq<SlideDef>>)

  /** One scene of the timeline. The title scene has no kind, step, slide or step index
      ("" / false / 0 / None). */
  datatype Scene = Scene(
    kind: string,
    text: string,
    imageUrl: string,
    durationInFrames: int,
    audioUrl: string,
    highlight: seq<string>,
    step: bool,
    slideHtml: string,
    customCss: string,
    stepIndex: int,
    slideId: Option<string>)

  /** A caption window in milliseconds. */
  datatype Caption = Caption(text: string, startMs: int, endMs: int)

  /** `data.json`: everything the renderer and the previews read. */
  datatype VideoData = VideoData(
    bgmUrl: string,
    scenes: seq<Scene>,
    captions: seq<Caption>,
    durationInFrames: int,
    titleSplit: Option<seq<string>>,
    backgroundImageUrl: string,
    characterImageUrl: string,
    slideHtml: string,
    customCss: string,
    slideSteps: Option<seq<int>>)

  /** The durations of the scenes, in order. */
  function Durations(scenes: seq<Scene>): (ds: seq<int>)
    ensures |ds| == |scenes|
    ensures forall i :: 0 <= i < |scenes| ==> ds[i] == scenes[i].durationInFrames
  {
    if scenes == [] then []
    else Durations(scenes[..|scenes| - 1]) + [scenes[|scenes| - 1].durationInFrames]
  }
}
