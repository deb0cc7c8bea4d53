/** Script merging: a long script written as several `input_*.json` parts becomes one
    `input.json`. The parts are read in sorted name order; their sections are
    concatenated, their slide definitions are kept once per id (the first one seen),
    and the title, theme and project name come from the first part.

    The project directory is an input: its listing, and the parsed contents of each
    part file. */
module MergeScripts {
  import opened Common
  import opened Text
  import opened Collections
  import opened VideoTypes

  const PartPrefix: string := "input_"
  const PartSuffix: string := ".json"

  datatype MergeOutcome = NoParts | Merged(output: InputJson)

  // ----- Selecting the parts -----

  predicate IsPart(name: string)
  {
    StartsWith(name, PartPrefix) && EndsWith(name, PartSuffix)
  }

  /** The part files of a listing, in the order they are merged: exactly the listed
      `input_*.json` names, sorted, each as often as it is listed. */
  function PartFiles(listing: seq<string>): (files: seq<string>)
    ensures forall f :: f in files <==> f in listing && IsPart(f)
    ensures Sorted(files)
    ensures multiset(files) == multiset(Filter(listing, IsPart))
  {
    var files := SortStrings(Filter(listing, IsPart));
    assert forall f :: f in files <==> f in multiset(Filter(listing, IsPart));
    files
  }

  // ----- What the merge produces -----

  /** A part's slide definitions, none when it has no `slides`. */
  function PartSlides(part: InputJson): seq<SlideDef>
  {
    if part.script.slides.Some? then part.script.slides.value else []
  }

  /** The sections of the first `n` parts, one part after the other. */
  function AllSections(parts: seq<InputJson>, n: nat): seq<Section>
    requires n <= |parts|
  {
    if n == 0 then [] else AllSections(parts, n - 1) + parts[n - 1].script.sections
  }

  /** The number of sections in the first `n` parts. */
  function SectionCount(parts: seq<InputJson>, n: nat): nat
    requires n <= |parts|
  {
    if n == 0 then 0 else SectionCount(parts, n - 1) + |parts[n - 1].script.sections|
  }

  /** The slide definitions of the first `n` parts, in order, duplicates included. */
  function AllSlides(parts: seq<InputJson>, n: nat): seq<SlideDef>
    requires n <= |parts|
  {
    if n == 0 then [] else AllSlides(parts, n - 1) + PartSlides(parts[n - 1])
  }

  function SlideKey(s: SlideDef): string { s.id }

  /** The merged `input.json`: the first part's project name, theme, title and title
      speech; its title split, or the title alone when it has none; the given sections
      and slides. Nothing else of any part is kept. */
  function MergedInput(first: InputJson, sections: seq<Section>, slides: seq<SlideDef>): InputJson
  {
    var s := first.script;
    var split := if s.titleSplit.Some? then s.titleSplit else Some([s.title]);
    InputJson(first.projectName, first.theme, Script(s.title, s.titleSpeech, split, Some(slides), "", sections), None)
  }

  /** The merge of the parts, in order. */
  function Merge(parts: seq<InputJson>): MergeOutcome
  {
    if parts == [] then NoParts
    else Merged(MergedInput(parts[0], AllSections(parts, |parts|), DedupBy(AllSlides(parts, |parts|), SlideKey)))
  }

  /** The parsed parts, in file order. */
  function PartsOf(files: seq<string>, contents: map<string, InputJson>): (parts: seq<InputJson>)
    requires forall i :: 0 <= i < |files| ==> files[i] in contents
    ensures |parts| == |files|
    ensures forall i :: 0 <= i < |files| ==> parts[i] == contents[files[i]]
  {
    seq(|files|, i requires 0 <= i < |files| => contents[files[i]])
  }

  // ----- Properties of the merge -----

  /** The merged sections hold as many sections as all parts together. */
  lemma {:induction false} AllSectionsLength(parts: seq<InputJson>, n: nat)
    requires n <= |parts|
    ensures |AllSections(parts, n)| == SectionCount(parts, n)
  {
    if n > 0 {
      AllSectionsLength(parts, n - 1);
    }
  }

  /** Section `k` of part `i` sits after the sections of the parts before it: the
      parts' sections are concatenated in file order. */
  lemma {:induction false} AllSectionsAt(parts: seq<InputJson>, n: nat, i: nat, k: nat)
    requires i < n <= |parts|
    requires k < |parts[i].script.sections|
    ensures SectionCount(parts, i) + k < |AllSections(parts, n)|
    ensures AllSections(parts, n)[SectionCount(parts, i) + k] == parts[i].script.sections[k]
  {
    AllSectionsLength(parts, n - 1);
    AllSectionsLength(parts, i);
    if i < n - 1 {
      AllSectionsAt(parts, n - 1, i, k);
      SectionCountMonotone(parts, i + 1, n - 1);
    } else {
      assert AllSections(parts, n) == AllSections(parts, n - 1) + parts[n - 1].script.sections;
    }
  }

  lemma {:induction false} SectionCountMonotone(parts: seq<InputJson>, m: nat, n: nat)
    requires m <= n <= |parts|
    ensures SectionCount(parts, m) <= SectionCount(parts, n)
  {
    if m < n {
      SectionCountMonotone(parts, m, n - 1);
    }
  }

  /** An id occurs in a concatenation iff it occurs in one of its halves. */
  lemma HasKeyAppend(xs: seq<SlideDef>, ys: seq<SlideDef>, id: string)
    ensures HasKey(xs + ys, SlideKey, id) <==> HasKey(xs, SlideKey, id) || HasKey(ys, SlideKey, id)
  {
    if HasKey(xs + ys, SlideKey, id) {
      var j :| 0 <= j < |xs + ys| && SlideKey((xs + ys)[j]) == id;
      if j >= |xs| {
        assert SlideKey(ys[j - |xs|]) == id;
      }
    }
    if HasKey(xs, SlideKey, id) {
      var j :| 0 <= j < |xs| && SlideKey(xs[j]) == id;
      assert SlideKey((xs + ys)[j]) == id;
    }
    if HasKey(ys, SlideKey, id) {
      var j :| 0 <= j < |ys| && SlideKey(ys[j]) == id;
      assert SlideKey((xs + ys)[|xs| + j]) == id;
    }
  }

  /** A slide id occurs among the parts' slides iff some part defines it. */
  lemma {:induction false} AllSlidesHasKey(parts: seq<InputJson>, n: nat, id: string)
    requires n <= |parts|
    ensures HasKey(AllSlides(parts, n), SlideKey, id) <==>
      exists i :: 0 <= i < n && HasKey(PartSlides(parts[i]), SlideKey, id)
  {
    if n > 0 {
      AllSlidesHasKey(parts, n - 1, id);
      HasKeyAppend(AllSlides(parts, n - 1), PartSlides(parts[n - 1]), id);
      if exists i :: 0 <= i < n && HasKey(PartSlides(parts[i]), SlideKey, id) {
        var i :| 0 <= i < n && HasKey(PartSlides(parts[i]), SlideKey, id);
        assert i < n - 1 || HasKey(PartSlides(parts[n - 1]), SlideKey, id);
      }
    }
  }

  /** The merged slide list has unique ids, holds every id some part defines and no
      other, and keeps for each id the first definition in part order. */
  lemma MergedSlides(parts: seq<InputJson>)
    requires parts != []
    ensures var slides := Merge(parts).output.script.slides.value;
      && (forall a, b :: 0 <= a < b < |slides| ==> slides[a].id != slides[b].id)
      && (forall id :: HasKey(slides, SlideKey, id) <==>
            exists i :: 0 <= i < |parts| && HasKey(PartSlides(parts[i]), SlideKey, id))
      && (forall m :: 0 <= m < |slides| ==>
            var all := AllSlides(parts, |parts|);
            HasKey(all, SlideKey, slides[m].id) && slides[m] == all[FirstIndex(all, SlideKey, slides[m].id)])
  {
    var all := AllSlides(parts, |parts|);
    var slides := DedupBy(all, SlideKey);
    forall id
      ensures HasKey(slides, SlideKey, id) <==>
        exists i :: 0 <= i < |parts| && HasKey(PartSlides(parts[i]), SlideKey, id)
    {
      AllSlidesHasKey(parts, |parts|, id);
    }
    forall m | 0 <= m < |slides|
      ensures HasKey(all, SlideKey, slides[m].id) && slides[m] == all[FirstIndex(all, SlideKey, slides[m].id)]
    {
      DedupByKeepsFirst(all, SlideKey, m);
    }
  }

  /** The merged slides keep the order in which their ids first appear in the parts. */
  lemma MergedSlidesOrder(parts: seq<InputJson>)
    requires parts != []
    ensures var slides := Merge(parts).output.script.slides.value;
            var all := AllSlides(parts, |parts|);
      forall m, m' :: 0 <= m < m' < |slides| ==>
        && HasKey(all, SlideKey, slides[m].id) && HasKey(all, SlideKey, slides[m'].id)
        && FirstIndex(all, SlideKey, slides[m].id) < FirstIndex(all, SlideKey, slides[m'].id)
  {
    var all := AllSlides(parts, |parts|);
    var slides := DedupBy(all, SlideKey);
    forall m, m' | 0 <= m < m' < |slides|
      ensures HasKey(all, SlideKey, slides[m].id) && HasKey(all, SlideKey, slides[m'].id)
      ensures FirstIndex(all, SlideKey, slides[m].id) < FirstIndex(all, SlideKey, slides[m'].id)
    {
      DedupByKeepsOrder(all, SlideKey, m, m');
    }
  }

  /** Only the first part's project name, theme and titles reach the output: parts that
      agree on the first part and on every part's sections and slides merge alike. */
  lemma MetadataFromFirstOnly(parts: seq<InputJson>, parts': seq<InputJson>)
    requires |parts| == |parts'| > 0
    requires parts[0] == parts'[0]
    requires forall i :: 0 <= i < |parts| ==>
      parts[i].script.sections == parts'[i].script.sections && parts[i].script.slides == parts'[i].script.slides
    ensures Merge(parts) == Merge(parts')
  {
    SameSectionsAndSlides(parts, parts', |parts|);
  }

  lemma {:induction false} SameSectionsAndSlides(parts: seq<InputJson>, parts': seq<InputJson>, n: nat)
    requires n <= |parts| == |parts'|
    requires forall i :: 0 <= i < |parts| ==>
      parts[i].script.sections == parts'[i].script.sections && parts[i].script.slides == parts'[i].script.slides
    ensures AllSections(parts, n) == AllSections(parts', n)
    ensures AllSlides(parts, n) == AllSlides(parts', n)
  {
    if n > 0 {
      SameSectionsAndSlides(parts, parts', n - 1);
    }
  }

  /** The title split of the output is the first part's, or its title alone. */
  lemma TitleSplitDefault(parts: seq<InputJson>)
    requires parts != []
    ensures Merge(parts).output.script.titleSplit.Some?
    ensures parts[0].script.titleSplit.None? ==> Merge(parts).output.script.titleSplit == Some([parts[0].script.title])
    ensures parts[0].script.titleSplit.Some? ==> Merge(parts).output.script.titleSplit == parts[0].script.titleSplit
  {
  }

  // ----- The merge script -----

  /** Appends to `combined` each slide of `newSlides` whose id it does not hold yet. */
  method AddSlides(combined: seq<SlideDef>, newSlides: seq<SlideDef>, ghost seen: seq<SlideDef>)
    returns (combined': seq<SlideDef>)
    requires combined == DedupBy(seen, SlideKey)
    ensures combined' == DedupBy(seen + newSlides, SlideKey)
  {
    combined' := combined;
    var j := 0;
    assert seen + newSlides[..0] == seen;
    while j < |newSlides|
      invariant j <= |newSlides|
      invariant combined' == DedupBy(seen + newSlides[..j], SlideKey)
    {
      var newSlide := newSlides[j];
      assert seen + newSlides[..j + 1] == (seen + newSlides[..j]) + [newSlide];
      DedupBySnoc(seen + newSlides[..j], newSlide, SlideKey);
      if !HasKey(combined', SlideKey, newSlide.id) {
        combined' := combined' + [newSlide];
      }
      j := j + 1;
    }
    assert newSlides[..j] == newSlides;
  }

  /** One more part adds its `slides` list, or nothing when it has none. */
  lemma AllSlidesStep(parts: seq<InputJson>, n: nat)
    requires n < |parts|
    ensures parts[n].script.slides.Some? ==>
      AllSlides(parts, n + 1) == AllSlides(parts, n) + parts[n].script.slides.value
    ensures parts[n].script.slides.None? ==> AllSlides(parts, n + 1) == AllSlides(parts, n)
  {
    assert AllSlides(parts, n) + [] == AllSlides(parts, n);
  }

  /** The loop over the part files: the first part gives the metadata, every part adds
      its sections, and its slides whose ids are new. */
  method MergeFiles(files: seq<string>, contents: map<string, InputJson>) returns (r: MergeOutcome)
    requires forall i :: 0 <= i < |files| ==> files[i] in contents
    ensures r == Merge(PartsOf(files, contents))
  {
    ghost var parts := PartsOf(files, contents);
    var combinedSections: seq<Section> := [];
    var combinedSlides: seq<SlideDef> := [];
    var baseData: Option<InputJson> := None;
    var index := 0;
    while index < |files|
      invariant index <= |files|
      invariant combinedSections == AllSections(parts, index)
      invariant combinedSlides == DedupBy(AllSlides(parts, index), SlideKey)
      invariant index == 0 <==> baseData.None?
      invariant index > 0 ==> baseData == Some(MergedInput(parts[0], [], []))
    {
      var data := contents[files[index]];
      assert data == parts[index];
      if index == 0 {
        baseData := Some(MergedInput(data, [], []));
      }
      combinedSections := combinedSections + data.script.sections;
      AllSlidesStep(parts, index);
      if data.script.slides.Some? {
        combinedSlides := AddSlides(combinedSlides, data.script.slides.value, AllSlides(parts, index));
      }
      index := index + 1;
    }
    if baseData.Some? {
      var base := baseData.value;
      r := Merged(base.(script := base.script.(sections := combinedSections, slides := Some(combinedSlides))));
    } else {
      r := NoParts;
    }
  }

  /** The merge script over a project directory: nothing is written without part files;
      otherwise the parts are merged in sorted name order. */
  method MergeProject(listing: seq<string>, contents: map<string, InputJson>) returns (r: MergeOutcome)
    requires forall f :: f in listing && IsPart(f) ==> f in contents
    ensures PartFiles(listing) == [] ==> r == NoParts
    ensures PartFiles(listing) != [] ==> r == Merge(PartsOf(PartFiles(listing), contents))
  {
    var files := PartFiles(listing);
    if |files| == 0 {
      return NoParts;
    }
    r := MergeFiles(files, contents);
  }
}
