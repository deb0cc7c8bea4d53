# long-video-generator: a verified model of the pipeline's bookkeeping

The long-video-generator turns a written script into a narrated slide video and
uploads it to YouTube. Most of its scripts drive outside tools (a speech
synthesiser, ffmpeg and ffprobe, the marp CLI, the Remotion renderer, the YouTube
API). Around those calls sits bookkeeping that decides what the video contains and
when it is published. This project models that bookkeeping in Dafny and proves
what it promises:

- **Timeline assembly** (`SyncAudio`, after `processProject` of `scripts/sync_audio.ts`).
  A script becomes one title scene plus one scene per section. Each scene lasts its
  audio plus 15 or 10 frames. Caption windows follow a millisecond cursor. A
  per-slide step counter, with a shared `default` counter, sets each scene's reveal
  step. A running frame total records where the step sections start (`slideSteps`).
  The project folder is found by exact name, else by the first `slug_` prefix.
- **Upload bookkeeping** (`UploadYoutube`, after `scripts/upload_youtube.ts`).
  This covers the six-uploads-per-24-hours quota and the choice of publishing slot
  from 21 candidates. It also covers the item list taken from the script's sections,
  the choice of metadata, and the write-back that fills only empty fields of the
  `youtube` block. Finally, it covers the 100- and 5000-character limits on the
  uploaded title and description.
- **Script validation** (`ValidateInput`, after `scripts/validate_input.ts`).
  It models the icon-font rule on each slide's CSS and the per-section rules on
  caption text and speech text. It also models the minimum section count and the
  error flag: which rules are errors and which are only warnings.
- **Script merging** (`MergeScripts`, after `scripts/merge_scripts.ts`).
  The `input_*.json` parts are taken in sorted order. Their sections are concatenated
  and their slides are deduplicated by id, keeping the first definition. The
  metadata comes from the first part.
- **HTML previews** (`HtmlPreviews`, after `scripts/generate_html_previews.ts`).
  It models the scene page names, the prev/next links, the `#item-1 … #item-k`
  visibility rule and the audio path. It also models the sorted list of slide ids,
  its neighbour links and each slide's representative scene.
- **The slide component** (`MarpReactSlide`, after `src/components/MarpReactSlide.tsx`).
  It models the style rules emitted for a frame: item `k+1` is revealed once the
  frame reaches `steps[k]`, and the highlight once it reaches `highlightStep`.
- **The composition** (`MarpExperiment`, after `src/components/MarpExperiment.tsx`).
  It models the scene start frames as running sums, `resolveSrc`, and the props each
  scene's slide receives.

Shared pieces live in `Common` (optional values, ceiling division, decimal
rendering, `padStart`), `Text` (JavaScript string operations over `seq<char>`),
`Collections` (`filter`, the default string `sort`, keep-first-per-key, running
sums) and `VideoTypes` (the records of `src/types.ts` and of `input.json`).

Modelling choices:

- Where the source changes state step by step, the model is a method with loop
  invariants, proved equal to a specification function. Lemmas then state the
  promised properties of that function. The `youtube` block, which the upload
  script updates field by field, is a class.
- Files, directory listings and probe results are inputs (maps and sets). An audio
  file's length arrives as whole frames, `ceil(seconds * 30)`.
- Times in the upload script are integer milliseconds. The candidate days are
  `today + d * 86400000`, with `today` the local midnight, an input.
- Optional string fields that the source only tests for truthiness are strings,
  with `""` standing for absent. `slideId` is an `Option`, because the preview
  script's sort treats `undefined` specially.

## Model

| member | source | states |
|---|---|---|
| SyncAudio.ResolveProject | scripts/sync_audio.ts:24-37 | An exact folder name wins. Otherwise the result is the first listed entry starting with `slug + "_"`. There is no folder, so nothing is processed, iff no entry has that prefix. |
| SyncAudio.TitleFrames | scripts/sync_audio.ts:102-112 | The title scene lasts its audio plus 15 frames, so at least 15. A missing or unprobeable `title.mp3` counts as 5 seconds, giving 165 frames. |
| SyncAudio.SectionFrames | scripts/sync_audio.ts:141-150 | Section `i` lasts `i.mp3` plus 10 frames, so at least 10. A missing or unprobeable file gives 160 frames. |
| SyncAudio.FramesToMs | scripts/sync_audio.ts:151 | A scene's milliseconds are the least whole number covering its frames at 30 fps. |
| SyncAudio.FirstExisting | scripts/sync_audio.ts:163-182 | The chosen image is the first candidate name present in `assets/` or `images/`, and no earlier name is present in either. There is none iff no name is present. |
| SyncAudio.PickImage | scripts/sync_audio.ts:164-176 | The nested loop, name by name and then folder by folder, with its two `break`s, finds the first existing name. |
| SyncAudio.PickSectionImage | scripts/sync_audio.ts:153-183 | A `slide` section shows its published `slide_i.png` or the Slide Missing placeholder. Any other section shows `section_XX.png`, else `scene_i.png`, else `placeholder.png`. |
| SyncAudio.SlideCacheLookup | scripts/sync_audio.ts:62-78 | An id is cached iff some definition with that id has both files. The cached content is that of the last such definition. |
| SyncAudio.LoadSlideCache | scripts/sync_audio.ts:62-78 | The loading loop builds exactly that cache. |
| SyncAudio.DefaultSlide | scripts/sync_audio.ts:80-95 | A default slide exists iff the script has no `slides` list and both template files exist. The files are `slide_<template>.html/.css`, or `slide.html/.css` without a template. A script never has both a default and cached slides. |
| SyncAudio.StepsBeforeMonotone | scripts/sync_audio.ts:190-212 | A later section never sees fewer step sections under a counter than an earlier one. |
| SyncAudio.StepIndexAdvances | scripts/sync_audio.ts:194-211 | On one counter, a step section's index is at least 1. A later step section has a strictly larger index, and indices never decrease. |
| SyncAudio.CountersCountSteps | scripts/sync_audio.ts:190-212 | After `n` sections, each counter holds the number of step sections counted under its key (0 when unset). |
| SyncAudio.AttachSlide | scripts/sync_audio.ts:185-212 | A section gets its own loaded slide, else the default slide, else none. Its `stepIndex` is the number of step sections up to and including it on its counter: its slide id, or `default` shared by all default-slide sections. It is 0 when it has neither. The counters advance past it. |
| SyncAudio.MakeTitleScene | scripts/sync_audio.ts:102-134 | The title scene is the script's title (else `Title`) with `title.png` from `assets/` or `images/` (else the placeholder), the title frames and `title.mp3`. |
| SyncAudio.MakeSectionScene | scripts/sync_audio.ts:139-226 | The loop body builds the section's scene, with its image, frames, audio, slide and step index, and advances the counters. |
| SyncAudio.SectionStep | scripts/sync_audio.ts:139-235 | One pass keeps the loop invariant. It holds the scenes of the title and the first `i` sections, their captions, the counters, and the cursor at the end of section `i - 1`. |
| SyncAudio.BuildTimeline | scripts/sync_audio.ts:97-235 | The output is exactly the title scene followed by one scene per section in section order, plus one caption per section. The cursor ends after the last section. |
| SyncAudio.StepScenes | scripts/sync_audio.ts:267-274 | It lists the scene index of every step section and of nothing else, in ascending order. |
| SyncAudio.StartFrames | scripts/sync_audio.ts:265-276 | Each listed scene's entry is the sum of the durations of the scenes before it, title included. |
| SyncAudio.CollectSlideSteps | scripts/sync_audio.ts:264-276 | The pass accumulating `currentFrame` records, in order, the start frame of each step section's scene. |
| SyncAudio.ProcessProject | scripts/sync_audio.ts:22-294 | An unresolvable slug processes nothing. A folder without `input.json` is reported. Otherwise the result is the `data.json` built from the loaded slides, the timeline, `slideSteps`, the total frames and the global assets. |
| SyncAudio.ScenesUpToAt | scripts/sync_audio.ts:128-226 | Scene 0 is the title scene and scene `t` is the scene of section `t - 1`. |
| SyncAudio.CaptionsAt | scripts/sync_audio.ts:228-232 | Caption `j` is section `j`'s text and window. |
| SyncAudio.SceneDurations | scripts/sync_audio.ts:112-150 | Scene `t` lasts the title's frames or section `t - 1`'s frames, so every scene lasts at least 10 frames. |
| SyncAudio.FramesToMsBounds | scripts/sync_audio.ts:151 | A scene's milliseconds cover its frames and exceed them by less than one millisecond. |
| SyncAudio.CaptionStartBounds | scripts/sync_audio.ts:228-234 | The caption cursor is never behind the frames so far. It is ahead by less than one millisecond per scene. |
| SyncAudio.ScenePrefixFrames | scripts/sync_audio.ts:128-226 | The scenes' running frame total after the title and `i` sections is their frames added up. |
| SyncAudio.FirstCaptionAfterTitle | scripts/sync_audio.ts:113-136 | The first caption starts at the title's duration in milliseconds. |
| SyncAudio.CaptionsContiguous | scripts/sync_audio.ts:228-234 | Each caption ends exactly where the next one starts. |
| SyncAudio.CaptionCoversScene | scripts/sync_audio.ts:228-232 | Each caption window lasts at least as long as its scene. |
| SyncAudio.CaptionNotBeforeScene | scripts/sync_audio.ts:228-234 | No caption starts before its scene does. |
| SyncAudio.TimelineCoversScenes | scripts/sync_audio.ts:237 | The video's frame count is at least the scenes' total. It exceeds that total by less than one frame plus the accumulated rounding. |
| SyncAudio.SlideStepsIncrease | scripts/sync_audio.ts:264-276 | `slideSteps` strictly increases, and each entry is the start frame of a step section's scene. |
| UploadYoutube.RecentUploadsExactly | scripts/upload_youtube.ts:70-80 | An entry counts toward the quota iff its upload date is valid and less than 24 hours before now. A missing or invalid date never counts. |
| UploadYoutube.ShortLogAllows | scripts/upload_youtube.ts:82-85 | A log of fewer than 6 entries never blocks a run. |
| UploadYoutube.QuotaAllowsLater | scripts/upload_youtube.ts:67-85 | Waiting never turns an allowed run into a refused one. |
| UploadYoutube.QuotaAllowsPrefix | scripts/upload_youtube.ts:70-85 | More log entries never turn a refused run into an allowed one. |
| UploadYoutube.ScheduledTimes | scripts/upload_youtube.ts:104-106 | The blocking times are exactly the scheduled values strictly after now. |
| UploadYoutube.OnlyDatesBlock | scripts/upload_youtube.ts:104-106 | An entry without `scheduledFor` (mapped to 0) or with an invalid date never blocks a slot. |
| UploadYoutube.GenerateCandidates | scripts/upload_youtube.ts:109-119 | The loop yields 21 candidates: day `k / 3` at 07:00, 12:00 or 20:00. |
| UploadYoutube.CandidatesIncrease | scripts/upload_youtube.ts:109-119 | The candidates are in strictly chronological order. |
| UploadYoutube.SmartPublishDate | scripts/upload_youtube.ts:122-136 | The result is the first candidate after now with no blocking time within an hour. With no such candidate it is now plus one day. |
| UploadYoutube.PublishDateIsFree | scripts/upload_youtube.ts:100-137 | The chosen time is after now. When some slot is free, the chosen time is one of the slots and no future scheduled upload of the log lies within an hour of it. Otherwise it is now plus one day, which may collide with a scheduled upload. |
| UploadYoutube.LookAheadResult | scripts/upload_youtube.ts:173-179 | The look-ahead yields its start value or the headline of a candidate section within six places. |
| UploadYoutube.LookAheadFirstLong | scripts/upload_youtube.ts:173-178 | When some candidate's headline is longer than 5, the look-ahead yields the first such headline. |
| UploadYoutube.ItemDetail | scripts/upload_youtube.ts:172-180 | An item's detail is never empty. It is the headline of a later candidate section or the default `業務を効率化します`. |
| UploadYoutube.FindDetail | scripts/upload_youtube.ts:172-179 | The look-ahead loop with its early `break` computes that detail. |
| UploadYoutube.ExtractedNamesIntroduced | scripts/upload_youtube.ts:163-183 | Every extracted name is introduced by some section. |
| UploadYoutube.IntroducedNamesExtracted | scripts/upload_youtube.ts:163-183 | Every introduced name is extracted. |
| UploadYoutube.ExtractedNamesUnique | scripts/upload_youtube.ts:168-170 | Extracted names never repeat. |
| UploadYoutube.ExtractedFirstSeen | scripts/upload_youtube.ts:168-180 | Items are in first-seen order of their names, and each carries the detail of its name's first introduction. |
| UploadYoutube.IntroduceItem | scripts/upload_youtube.ts:165-180 | A marked section with a non-empty cleaned name introduces that name with its detail. |
| UploadYoutube.KeepNew | scripts/upload_youtube.ts:168-170 | An introduced item is appended iff its name is not listed yet. |
| UploadYoutube.ExtractItems | scripts/upload_youtube.ts:160-183 | The section loop yields the introduced items with repeated names dropped, and their names. |
| UploadYoutube.ChooseMetadata | scripts/upload_youtube.ts:142-232 | A block's non-empty title and description win. A block's empty title falls back to the topic title, and an empty description to the composed one. Without a block both are composed. Without a publishing time the run is scheduled at the chosen slot and is private. |
| UploadYoutube.YoutubeBlock.constructor | scripts/upload_youtube.ts:236-242 | A new block holds exactly the chosen metadata. |
| UploadYoutube.YoutubeBlock.Replace | scripts/upload_youtube.ts:235-242 | The metadata-only rewrite takes every field from the metadata. The block's own privacy status and publishing time win when set. |
| UploadYoutube.YoutubeBlock.FillMissing | scripts/upload_youtube.ts:247-251 | Only empty fields are filled, and privacy is untouched. `updated` is true iff some field was filled. |
| UploadYoutube.WriteBackMetadata | scripts/upload_youtube.ts:234-256 | Without a block, a new one holds the metadata. In metadata-only mode every field comes from the metadata, except that the block's own privacy status and publishing time win when set. Otherwise only the empty title, description, tags and publishing time are filled and privacy is untouched. `input.json` is rewritten iff there was no block, or metadata-only mode is on, or some empty field was filled. |
| UploadYoutube.Truncate | scripts/upload_youtube.ts:294-295 | `substring(0, limit)` is the longest prefix of at most `limit` characters. |
| UploadYoutube.SnippetLimits | scripts/upload_youtube.ts:294-295 | The uploaded title has at most 100 characters and the description at most 5000, each a prefix of the original. A short title is sent unchanged. |
| ValidateInput.RuleBodyAtIff | scripts/validate_input.ts:65 | The scan captures `body` at a position iff `\.material-symbols-outlined\s*{([^}]*)}` matches there with that group. |
| ValidateInput.FirstRuleBodyIsLeftmost | scripts/validate_input.ts:65-67 | The checked body is that of the leftmost match. Nothing is checked iff the pattern matches nowhere. |
| ValidateInput.MatchNeedsClass | scripts/validate_input.ts:63-65 | The `includes` guard never hides a match of the pattern. |
| ValidateInput.CssIssue | scripts/validate_input.ts:45-74 | A slide without `css` is skipped. A missing CSS file is an error. A first icon-class rule that does not name the icon font in single or double quotes is an error. Nothing else is reported. |
| ValidateInput.AnyCharIff | scripts/validate_input.ts:98-111 | A one-character-class test fires iff some character is in the class. |
| ValidateInput.HasDoublePauseIff | scripts/validate_input.ts:134 | `[、。]{2,}` matches iff two pauses stand next to each other. |
| ValidateInput.LineIssuesErrors | scripts/validate_input.ts:89-95 | The line check reports an error iff a line is longer than 35 characters. It reports one error per such line, with its number and length, and nothing else. |
| ValidateInput.SpeechIssuesErrors | scripts/validate_input.ts:127-138 | The speech text gives an error iff it is non-empty and has two pauses in a row. A high pause count is only a warning. |
| ValidateInput.ReportForErrors | scripts/validate_input.ts:78-139 | A section fails iff a line is too long, or it has prohibited punctuation, or its speech text has consecutive pauses. The total-length, space, letter and pause-count rules never make it fail. |
| ValidateInput.ReportForWarnings | scripts/validate_input.ts:84-133 | The warnings are exactly these: text longer than 35 without newlines, spaces, ASCII letters, and two or more pauses in a checked speech text. |
| ValidateInput.ChecksOfSection | scripts/validate_input.ts:80-84 | The newline-free length is that of the concatenated lines. The lines join back to the text, and an empty speech text is not counted. |
| ValidateInput.CssReportErrors | scripts/validate_input.ts:45-74 | The CSS pass reports an error iff some slide has a CSS issue. |
| ValidateInput.SectionsErrors | scripts/validate_input.ts:78-139 | The section pass reports an error iff some section fails. |
| ValidateInput.ReportErrors | scripts/validate_input.ts:41-163 | The project's diagnostics hold an error iff a CSS rule, a section error rule or the section count fires. |
| ValidateInput.CheckLines | scripts/validate_input.ts:89-95 | The line loop reports the over-long lines and sets its flag iff there is one. |
| ValidateInput.CheckSpeech | scripts/validate_input.ts:127-138 | The speech rules run only on a non-empty speech text. They set the flag only for consecutive pauses. |
| ValidateInput.CheckSection | scripts/validate_input.ts:78-139 | The section's rules run in order, and the flag is set iff one of its error rules fires. |
| ValidateInput.CheckSlides | scripts/validate_input.ts:45-74 | The slide loop collects the CSS diagnostics, and its flag is set iff one of them is an error. |
| ValidateInput.SectionStep | scripts/validate_input.ts:78-139 | One pass appends the section's diagnostics and keeps "flag iff some error". |
| ValidateInput.CheckSections | scripts/validate_input.ts:78-139 | The section loop collects every section's diagnostics in order and keeps "flag iff some error". |
| ValidateInput.Validate | scripts/validate_input.ts:41-163 | `hasError` holds iff some error rule fired: a CSS issue, a long line, prohibited punctuation, consecutive pauses, or fewer than 3 sections. Warnings never set it, so the script passes iff none of those fired. |
| MergeScripts.PartFiles | scripts/merge_scripts.ts:51-53 | The parts are exactly the listed names starting with `input_` and ending with `.json`, each as often as listed, in sorted order. |
| MergeScripts.AllSectionsLength | scripts/merge_scripts.ts:85 | The merged sections are as many as all parts' sections together. |
| MergeScripts.AllSectionsAt | scripts/merge_scripts.ts:85 | Section `k` of part `i` comes right after the sections of the parts before it: a concatenation in file order. |
| MergeScripts.MergedSlides | scripts/merge_scripts.ts:88-94 | Merged slide ids are unique. Every id some part defines is present, and no other. The definition kept for an id is the first one in part order. |
| MergeScripts.MergedSlidesOrder | scripts/merge_scripts.ts:89-93 | The merged slides keep the order in which their ids first appear. |
| MergeScripts.MetadataFromFirstOnly | scripts/merge_scripts.ts:70-82 | Only the first part's project name, theme and titles reach the output. |
| MergeScripts.TitleSplitDefault | scripts/merge_scripts.ts:78 | The output's title split is the first part's, or its title alone when it has none. |
| MergeScripts.AddSlides | scripts/merge_scripts.ts:88-94 | The inner loop appends each new slide whose id is not held yet. |
| MergeScripts.MergeProject | scripts/merge_scripts.ts:51-103 | Without part files nothing is written. Otherwise the sorted parts are merged as above. |
| HtmlPreviews.SceneFileNameParses | scripts/generate_html_previews.ts:189 | A scene file name is `scene_`, the index zero-padded to at least two digits and never truncated, then `.html`. It parses back to the index. |
| HtmlPreviews.SceneFileNamesDistinct | scripts/generate_html_previews.ts:189 | Two scenes share a file name iff they are the same scene. |
| HtmlPreviews.PrevLink | scripts/generate_html_previews.ts:41 | The prev link is `#` iff the scene is the first. Otherwise it is the previous scene's page. |
| HtmlPreviews.NextLink | scripts/generate_html_previews.ts:42 | The next link is `#` iff the scene is the last. Otherwise it is the next scene's page. |
| HtmlPreviews.SelectorsExactly | scripts/generate_html_previews.ts:45-48 | `#item-j` is listed iff `1 <= j <= stepIndex`. |
| HtmlPreviews.SelectorsAt | scripts/generate_html_previews.ts:45-48 | The selectors are in item order. |
| HtmlPreviews.VisibilitySelectors | scripts/generate_html_previews.ts:45-48 | The loop yields `#item-1 … #item-k` for `k = stepIndex`, and nothing for `k <= 0`. |
| HtmlPreviews.VisibilityCss | scripts/generate_html_previews.ts:49-51 | The visibility rule is empty iff no selector is listed. Otherwise it ends with the rule forcing the items visible. |
| HtmlPreviews.VisibilityCssEmpty | scripts/generate_html_previews.ts:35-51 | A scene's visibility rule is empty iff its step (default 0) is not positive. |
| HtmlPreviews.Basename | scripts/generate_html_previews.ts:62 | The audio file's base name contains no `/`. |
| HtmlPreviews.BasenameOfPath | scripts/generate_html_previews.ts:62 | The base name ends the path once trailing `/`s are dropped, and follows its last other `/`. |
| HtmlPreviews.ScenePageFacts | scripts/generate_html_previews.ts:33-63 | A scene page links its neighbours, or `#` at the ends. It forces exactly items 1 to the step visible. It shows the slide or `<!-- No Slide Content -->`, and its audio path is a file directly in `../assets/audio/`. |
| HtmlPreviews.GenerateSceneHtml | scripts/generate_html_previews.ts:33-63 | The page is built from the scene as above. |
| HtmlPreviews.GenerateScenePages | scripts/generate_html_previews.ts:186-191 | One page per scene, in order, named after its index. |
| HtmlPreviews.UniqueSlideIds | scripts/generate_html_previews.ts:197-198 | Every slide id some scene carries appears once, in ascending order, and nothing else. |
| HtmlPreviews.UniqueSlideListMembers | scripts/generate_html_previews.ts:197-198 | The list holds exactly the scenes' distinct `slideId` values, absent included. |
| HtmlPreviews.UniqueSlideListShape | scripts/generate_html_previews.ts:197-198 | No entry is listed twice, and the absent value can only be last. |
| HtmlPreviews.SlideListHasScenes | scripts/generate_html_previews.ts:203-204 | Every listed entry has a representative scene, so the early `return` never fires. |
| HtmlPreviews.PrevSlide | scripts/generate_html_previews.ts:210-213 | A prev link leads only to the entry just before. |
| HtmlPreviews.NextSlide | scripts/generate_html_previews.ts:211-214 | A next link leads only to the entry just after. |
| HtmlPreviews.PreviewFilesComplete | scripts/generate_html_previews.ts:201-204 | When every entry has a scene, entry `k` gets the `k`-th preview. |
| HtmlPreviews.PreviewFacts | scripts/generate_html_previews.ts:201-214 | A preview shows the first scene using its slide, or `<!-- No Content -->`. The first entry has no prev link and the last no next link, and a neighbour with a non-empty id is linked. |
| HtmlPreviews.ArrowKeysLeaveTheList | scripts/generate_html_previews.ts:288-289 | On the last preview ArrowRight, and on the first ArrowLeft, opens `null_preview.html`, which no preview is named unless a slide is called `null`. |
| HtmlPreviews.ArrowKeyWithoutLink | scripts/generate_html_previews.ts:288 | Next to the absent id no next link is drawn, yet ArrowRight opens `undefined_preview.html`. |
| HtmlPreviews.CorrectedArrowKeysStayInList | scripts/generate_html_previews.ts:288-289 | With keys that follow the links, the first preview's ArrowLeft and the last one's ArrowRight do nothing. An arrow key opens the preview written for the neighbouring entry exactly when a link to it is drawn. |
| HtmlPreviews.WritePreviews | scripts/generate_html_previews.ts:201-298 | The loop writes one preview per entry that has a scene, in list order. |
| HtmlPreviews.GeneratePreviews | scripts/generate_html_previews.ts:184-298 | One page per scene, under pairwise distinct names. Then one preview per list entry, named after it and filled from its first scene. |
| HtmlPreviews.TitleSceneBecomesSlide | scripts/generate_html_previews.ts:197-198 | When the title scene has no slide id, the list is the ids followed by `undefined`, whose representative is the title scene. |
| HtmlPreviews.AbsentIdPreviewName | scripts/generate_html_previews.ts:297 | The absent id's preview is written under the name a slide called `undefined` would use. |
| HtmlPreviews.AbsentIdListedLast | scripts/generate_html_previews.ts:197-198 | Any scene without a slide id adds exactly one entry, after the ids. |
| HtmlPreviews.CorrectedSlidePreviews | scripts/generate_html_previews.ts:197-204 | Over the present ids alone, each slide id gets exactly one preview named after it. |
| MarpReactSlide.ItemRuleParts | src/components/MarpReactSlide.tsx:157 | An item rule is one line, and its item number can be read back from it. |
| MarpReactSlide.ItemRuleInjective | src/components/MarpReactSlide.tsx:157 | Distinct items have distinct rules. |
| MarpReactSlide.ItemRules | src/components/MarpReactSlide.tsx:153-158 | There is one rule per step. The rule for step `k` is non-empty iff the frame has reached `steps[k]`, and then it reveals item `k + 1`. |
| MarpReactSlide.ItemRevealed | src/components/MarpReactSlide.tsx:153-157 | Item `j`'s rule is emitted iff item `j` has a step and the frame has reached it. |
| MarpReactSlide.RevealIsMonotone | src/components/MarpReactSlide.tsx:155 | A revealed item stays revealed on every later frame. |
| MarpReactSlide.DynamicStylesLines | src/components/MarpReactSlide.tsx:158 | Joined with newlines, the item rules read back line by line in item order. |
| MarpReactSlide.HighlightStyle | src/components/MarpReactSlide.tsx:160-161 | The highlight rule is present iff a highlight step is given and the frame has reached it. The default, `Infinity`, is never reached. |
| MarpReactSlide.RenderFacts | src/components/MarpReactSlide.tsx:162-170 | The style is the item rules followed by the highlight rule. A missing `htmlContent` renders as `''`, and an empty `customCss` is not rendered. |
| MarpReactSlide.DefaultsRenderNoStyle | src/components/MarpReactSlide.tsx:148 | With the default `steps` and `highlightStep`, no rule is emitted at all. |
| MarpReactSlide.ItemOneRuleRevealsItemTen | src/components/MarpReactSlide.tsx:156-157 | With ten items, item 1's prefix rule, on from the first step, also selects item 10, whose own rule is still off. |
| MarpReactSlide.ExactRuleRevealsOwnItem | src/components/MarpReactSlide.tsx:156-157 | With the intended selection (the item and its `_` parts), an element of item `j` is revealed iff the frame has reached item `j`'s own step. |
| MarpExperiment.ResolveSrc | src/components/MarpExperiment.tsx:11-14 | A source starting with `http` passes through unchanged. Any other source names a public file, after losing one leading `/` if it has one. |
| MarpExperiment.ResolveSrcStripsOnce | src/components/MarpExperiment.tsx:13 | Exactly one `/` is stripped: `//x` names the file `/x`. |
| MarpExperiment.SceneStartFrames | src/components/MarpExperiment.tsx:17-23 | There is one start frame per scene, the sum of the durations before it, and the final count is the total. |
| MarpExperiment.StartFramesChain | src/components/MarpExperiment.tsx:17-23 | The first scene starts at 0, and each next one where the previous ends. With non-negative durations the start frames never decrease. |
| MarpExperiment.DataSteps | src/components/MarpExperiment.tsx:25-28 | `steps` is the data's `slideSteps` when that is non-empty, and `[]` otherwise. The component computes this value but passes it to no slide, so it is not the slide's `steps`. |
| MarpExperiment.ScenePropsFallbacks | src/components/MarpExperiment.tsx:59-61 | A scene's slide shows its own HTML, else the data's, else `''`. It uses its own CSS, else the data's. Its style reveals nothing on any frame. |
| MarpExperiment.VideoHidesWhatPreviewShows | src/components/MarpExperiment.tsx:56-64 | On a scene at step one or more, the HTML preview shows item 1 while the video's slide never reveals it. |
| MarpExperiment.CorrectedSlideMatchesPreview | src/components/MarpExperiment.tsx:56-64 | With the step index passed as steps, the slide emits a rule for exactly the items whose `#item-k` selectors the scene's preview lists. |
| MarpExperiment.Compose | src/components/MarpExperiment.tsx:33-64 | The music plays iff the data has a `bgmUrl`. Each scene with audio gets its clip, and each scene gets its slide. Both start where the scenes before it end and last as long as the scene. |
| Common.CeilDiv | scripts/sync_audio.ts:237 | `Math.ceil` of a quotient is the least whole number whose multiple covers the dividend. |
| Common.PadStart | scripts/generate_html_previews.ts:41 | `padStart` fills up to the width with the pad character and never truncates a longer string. |
| Text.JoinSplit | scripts/validate_input.ts:81 | Joining the split lines with the separator gives back the text. |
| Text.SplitJoin | src/components/MarpReactSlide.tsx:158 | Splitting a join of separator-free pieces gives back the pieces. |
| Text.RemoveAll | scripts/validate_input.ts:84 | Removing a character leaves every other character, no occurrence of it, and no more characters. |
| Text.TrimIsSlice | scripts/upload_youtube.ts:167 | `trim` cuts only white space, on either side. |
| Collections.Filter | scripts/sync_audio.ts:28 | `filter` keeps exactly the elements satisfying the test: every kept element satisfies it, and every element satisfying it is kept. |
| Collections.FilterHead | scripts/sync_audio.ts:28-30 | The head of a filter is the first element satisfying the test. |
| Collections.SortStrings | scripts/merge_scripts.ts:53 | The default sort returns the same strings in ascending order. |
| Collections.FirstIndex | scripts/generate_html_previews.ts:203 | `find` returns the first element with the key. |
| Collections.DedupBy | scripts/merge_scripts.ts:88-94 | "Push unless an element with this key is there" keeps every key once. |
| Collections.DedupByKeepsFirst | scripts/merge_scripts.ts:89-93 | The element kept for a key is its first occurrence. |
| Collections.DedupByKeepsOrder | scripts/merge_scripts.ts:89-93 | The kept elements are in order of first occurrence. |
| Collections.PrefixSumMonotone | src/components/MarpExperiment.tsx:20-23 | Running sums of non-negative durations never decrease, and those of positive durations strictly increase. |

## Left out

- Calls to outside tools are not modelled. These are ffprobe (`getAudioDuration` is an input of whole frames), the speech synthesiser, ffmpeg, marp, the Remotion renderer, and the OAuth and upload call with what follows a successful upload (log entry, project move, final write-back).
- Floating point is not modelled: seconds to frames to milliseconds are exact integer ceilings. An ffprobe output that does not parse (NaN) is not modelled.
- SyncAudio.ResolveProject: a slug is taken as a single folder name (not `""`, `.`, `..`, nor one with `/`), and the existence test `fs.existsSync(path.join(projectsBaseDir, slug))` is membership in the listing. A path-like slug that the source would resolve, such as `01_foo/` or `x/../01_foo`, falls through to the prefix search in the model.
- JSON parsing and writing, command-line arguments, `main`'s `all` selection, and the extra `public/data.json` written for the last project are not modelled.
- File copying, directory creation and logging are not modelled. The random BGM choice is an input (`GlobalAssets.bgmUrl`).
- Calendar arithmetic is left out. The slot candidates use days of exactly 24 hours from a given local midnight; daylight-saving changes, `setDate`/`setHours` and `toISOString` are not modelled. The publishing time is carried as given text.
- UploadYoutube.ChooseMetadata: the regex-driven composition of the topic title, the generated title and the description is an input. So is the item-marker test (`isItem`). JavaScript regular expressions over user text are not modelled.
- Strings are sequences of Unicode scalar values. JavaScript counts UTF-16 code units, so lengths and the default sort's order differ for characters outside the Basic Multilingual Plane.
- ValidateInput: the CSS path is resolved by the file map keyed by the slide's `css` field, not by `path.resolve`. The trailing-particle loop, whose warning is commented out in the source, has no effect and is not modelled.
- MergeScripts.MergedInput: fields of a part other than sections, slides, titles, theme and project name are dropped, as in the source; only the modelled fields of `input.json` exist.
- HtmlPreviews: the page templates, the index dashboard (`scripts/generate_html_previews.ts:304-371`) and the unused `slide_N` approximation at line 34 are not modelled. Basename follows POSIX `path.basename` with no suffix argument.
- MarpExperiment: the captions overlay and `OutlinedText` are not modelled. `staticFile` is modelled as naming a public file by its path. A slide's frame is local to its `Sequence`.
- A JavaScript object lookup such as `slideCache[id]` is modelled as a map lookup. Keys inherited from `Object.prototype` are not modelled.

## Findings

The operation models follow the code as written. Each corrected member states the evidently intended behaviour and proves it.

| source | as written | input that shows it | evidently intended | confidence | as-written member | corrected member |
|---|---|---|---|---|---|---|
| src/components/MarpExperiment.tsx:56-64 | The slide receives `stepIndex`, which `MarpReactSlide` does not declare (src/components/MarpReactSlide.tsx:141-148), so `steps` defaults to `[]` and no item is ever revealed in the video | Any scene with `stepIndex` 1: its HTML preview shows `#item-1`, while the video's slide emits no item rule on any frame | The slide reveals the items up to the scene's step, as the scene's HTML preview does | high; not executed | MarpExperiment.VideoHidesWhatPreviewShows | MarpExperiment.CorrectedSlideMatchesPreview |
| scripts/generate_html_previews.ts:197-198 | The set of slide ids includes the title scene's absent `slideId`. The sort puts `undefined` last, and a preview `undefined_preview.html` is written from the title scene | Scenes as `data.json` has them: the title scene without a slide id, then sections with `slide_1` | One preview per actual slide id | medium; not executed | HtmlPreviews.TitleSceneBecomesSlide | HtmlPreviews.CorrectedSlidePreviews |
| src/components/MarpReactSlide.tsx:157 | The prefix selector `[id^="item-1"]` also matches `item-10` … `item-19` | Ten steps `[0, 100, …, 900]` at frame 0: item 1's rule is on and selects `item-10`, whose own rule is off | A rule selects its own item and that item's `_` parts only | low; not executed | MarpReactSlide.ItemOneRuleRevealsItemTen | MarpReactSlide.ExactRuleRevealsOwnItem |
| scripts/generate_html_previews.ts:288-289 | The keyboard handler writes the raw neighbour into the page with a template literal and tests the quoted text. The `null` past either end becomes the truthy text `null` | Any slide list: on the last entry's preview ArrowRight opens `null_preview.html`, which is never written unless a slide is called `null` | The arrow keys do what the drawn links do, and nothing at the ends | high; not executed | HtmlPreviews.ArrowKeysLeaveTheList | HtmlPreviews.CorrectedArrowKeysStayInList |
