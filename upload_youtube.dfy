/** The bookkeeping of the upload script around the YouTube API call: the 24-hour
    upload quota, the choice of a publishing slot, the item list taken from the
    script's sections, the choice and write-back of the metadata, and the limits on
    the uploaded title and description.

    Times are integer milliseconds. A candidate slot list is computed from the local
    midnight of the current day, with days of exactly 24 hours. */
module UploadYoutube {
  import opened Common
  import opened Text
  import opened Collections
  import opened VideoTypes

  const HourMs: int := 3600000
  const DayMs: int := 86400000
  /** Uploads allowed within any 24 hours. */
  const DailyLimit: nat := 6
  /** The publishing hours tried on each day, in order. */
  const SlotHours: seq<int> := [7, 12, 20]
  const DaysAhead: nat := 7
  const CandidateCount: nat := 21
  const TitleLimit: nat := 100
  const DescriptionLimit: nat := 5000
  const DefaultDetail: string := "業務を効率化します"
  const DefaultPrivacy: string := "private"

  // ----- The upload log and the quota -----

  /** A date field of a log entry, as `new Date(field)` reads it: absent, not a date
      (such as "Immediate"), or a time. */
  datatype Stamp = Missing | Invalid | At(ms: int)

  /** An entry of docs/upload_log.json: when it was uploaded and when it is scheduled. */
  datatype LogEntry = LogEntry(uploadedAt: Stamp, scheduledFor: Stamp)

  /** An entry counts toward the quota iff its upload time is a date less than 24 hours
      before `now` (a time after `now` counts too). A missing or invalid date gives NaN,
      and every comparison with NaN is false. With integer milliseconds,
      `diff / 3600000 < 24` is exactly `diff < 86400000`. */
  predicate CountsTowardQuota(e: LogEntry, now: int)
  {
    e.uploadedAt.At? && now - e.uploadedAt.ms < DayMs
  }

  /** The entries of the last 24 hours, in log order. */
  function RecentUploads(log: seq<LogEntry>, now: int): seq<LogEntry>
  {
    Filter(log, e => CountsTowardQuota(e, now))
  }

  /** `checkQuota`: the run may go on iff fewer than 6 entries count. */
  function QuotaAllows(log: seq<LogEntry>, now: int): bool
  {
    |RecentUploads(log, now)| < DailyLimit
  }

  /** Which entries are recent is decided entry by entry. */
  lemma RecentUploadsExactly(log: seq<LogEntry>, now: int, e: LogEntry)
    ensures e in RecentUploads(log, now) <==> e in log && e.uploadedAt.At? && now - e.uploadedAt.ms < DayMs
  {
  }

  /** A log with fewer than 6 entries never blocks an upload. */
  lemma ShortLogAllows(log: seq<LogEntry>, now: int)
    requires |log| < DailyLimit
    ensures QuotaAllows(log, now)
  {
  }

  /** Waiting never turns an allowed upload into a refused one. */
  lemma QuotaAllowsLater(log: seq<LogEntry>, now: int, later: int)
    requires now <= later
    requires QuotaAllows(log, now)
    ensures QuotaAllows(log, later)
  {
    FilterStronger(log, e => CountsTowardQuota(e, now), e => CountsTowardQuota(e, later));
  }

  /** More log entries never turn a refused upload into an allowed one. */
  lemma QuotaAllowsPrefix(log: seq<LogEntry>, more: seq<LogEntry>, now: int)
    requires QuotaAllows(log + more, now)
    ensures QuotaAllows(log, now)
  {
    FilterAppend(log, more, e => CountsTowardQuota(e, now));
  }

  // ----- Scheduled times -----

  /** `scheduledFor ? new Date(scheduledFor).getTime() : 0`, with None for NaN. */
  function ScheduledValue(e: LogEntry): Option<int>
  {
    match e.scheduledFor
    case Missing => Some(0)
    case Invalid => None
    case At(t) => Some(t)
  }

  /** The scheduled times after `now`, in log order: the times that block a slot. */
  function ScheduledTimes(log: seq<LogEntry>, now: int): (ts: seq<int>)
    ensures forall k :: 0 <= k < |ts| ==> ts[k] > now
    ensures forall t :: t in ts <==> exists i :: 0 <= i < |log| && ScheduledValue(log[i]) == Some(t) && t > now
  {
    if log == [] then []
    else
      var v := ScheduledValue(log[0]);
      var rest := ScheduledTimes(log[1..], now);
      assert forall i :: 1 <= i < |log| ==> log[i] == log[1..][i - 1];
      (if v.Some? && v.value > now then [v.value] else []) + rest
  }

  /** From time 0 on, only entries that carry a date block a slot: an entry without
      `scheduledFor` maps to 0, an invalid date to NaN, and neither is in the future. */
  lemma {:induction false} OnlyDatesBlock(log: seq<LogEntry>, now: int)
    requires now >= 0
    ensures ScheduledTimes(log, now) == ScheduledTimes(Filter(log, (e: LogEntry) => e.scheduledFor.At?), now)
  {
    if log != [] {
      OnlyDatesBlock(log[1..], now);
      var dated := Filter(log, (e: LogEntry) => e.scheduledFor.At?);
      if log[0].scheduledFor.At? {
        assert dated == [log[0]] + Filter(log[1..], (e: LogEntry) => e.scheduledFor.At?);
        assert dated[0] == log[0] && dated[1..] == Filter(log[1..], (e: LogEntry) => e.scheduledFor.At?);
      } else {
        assert dated == Filter(log[1..], (e: LogEntry) => e.scheduledFor.At?);
      }
    }
  }

  // ----- Candidate slots -----

  /** Candidate `k`: day `k / 3` after `today` (a local midnight), at 07:00, 12:00 or
      20:00. */
  function CandidateSlot(today: int, k: nat): int
  {
    today + (k / 3) * DayMs + SlotHours[k % 3] * HourMs
  }

  lemma SlotOfDay(today: int, d: nat, j: nat)
    requires j < 3
    ensures CandidateSlot(today, 3 * d + j) == today + d * DayMs + SlotHours[j] * HourMs
  {
    assert (3 * d + j) / 3 == d && (3 * d + j) % 3 == j;
  }

  /** The candidate loop: for each of the next 7 days, push the 07:00, 12:00 and 20:00
      slots. */
  method GenerateCandidates(today: int) returns (candidates: seq<int>)
    ensures |candidates| == CandidateCount
    ensures forall k :: 0 <= k < |candidates| ==> candidates[k] == CandidateSlot(today, k)
  {
    candidates := [];
    var d := 0;
    while d < DaysAhead
      invariant 0 <= d <= DaysAhead
      invariant |candidates| == 3 * d
      invariant forall k :: 0 <= k < |candidates| ==> candidates[k] == CandidateSlot(today, k)
    {
      var date := today + d * DayMs;
      SlotOfDay(today, d, 0);
      SlotOfDay(today, d, 1);
      SlotOfDay(today, d, 2);
      candidates := candidates + [date + 7 * HourMs, date + 12 * HourMs, date + 20 * HourMs];
      d := d + 1;
    }
  }

  /** The candidates are in chronological order: each day's 20:00 slot comes before the
      next day's 07:00 slot. */
  lemma {:induction false} CandidatesIncrease(today: int, k: nat, k': nat)
    requires k < k'
    ensures CandidateSlot(today, k) < CandidateSlot(today, k')
    decreases k' - k
  {
    if k + 1 < k' {
      CandidatesIncrease(today, k, k' - 1);
      CandidatesIncrease(today, k' - 1, k');
    } else {
      var d, j := k / 3, k % 3;
      assert k == 3 * d + j;
      SlotOfDay(today, d, j);
      if j < 2 {
        SlotOfDay(today, d, j + 1);
      } else {
        SlotOfDay(today, d + 1, 0);
        assert (d + 1) * DayMs == d * DayMs + DayMs;
      }
    }
  }

  // ----- Choosing the slot -----

  /** A blocking time lies within one hour of `slot`, on either side. */
  predicate Taken(slot: int, scheduled: seq<int>)
  {
    exists k :: 0 <= k < |scheduled| && -HourMs < scheduled[k] - slot < HourMs
  }

  /** A slot is available iff it is after `now` and no blocking time is within an hour. */
  predicate Available(slot: int, now: int, scheduled: seq<int>)
  {
    slot > now && !Taken(slot, scheduled)
  }

  /** `getSmartPublishDate`: the first available candidate, else one day after `now`. */
  function SmartPublishDate(candidates: seq<int>, now: int, scheduled: seq<int>): (r: int)
    ensures (forall k :: 0 <= k < |candidates| ==> !Available(candidates[k], now, scheduled)) ==> r == now + DayMs
    ensures (exists k :: 0 <= k < |candidates| && Available(candidates[k], now, scheduled)) ==>
      exists k :: (0 <= k < |candidates| && candidates[k] == r && Available(r, now, scheduled)
                   && forall j :: 0 <= j < k ==> !Available(candidates[j], now, scheduled))
  {
    var availableSlots := Filter(candidates, slot => Available(slot, now, scheduled));
    if |availableSlots| == 0 then
      assert forall k :: 0 <= k < |candidates| ==> !Available(candidates[k], now, scheduled) by {
        forall k | 0 <= k < |candidates|
          ensures !Available(candidates[k], now, scheduled)
        {
          assert candidates[k] in candidates;
        }
      }
      now + DayMs
    else
      FilterHead(candidates, slot => Available(slot, now, scheduled));
      availableSlots[0]
  }

  /** The publishing time of a run at `now`: the candidates of the day `today`, blocked
      by the log's future scheduled times. */
  function PublishDate(log: seq<LogEntry>, now: int, today: int): int
  {
    SmartPublishDate(seq(CandidateCount, k requires 0 <= k => CandidateSlot(today, k)), now, ScheduledTimes(log, now))
  }

  /** The chosen time is always in the future. When some slot is free, the chosen one
      is a free slot: no upload of the log is scheduled within an hour of it. Otherwise
      it is one day after `now`, which may collide with a scheduled upload. */
  lemma PublishDateIsFree(log: seq<LogEntry>, now: int, today: int)
    ensures PublishDate(log, now, today) > now
    ensures (exists k :: 0 <= k < CandidateCount && Available(CandidateSlot(today, k), now, ScheduledTimes(log, now))) ==>
      && (exists k :: 0 <= k < CandidateCount && CandidateSlot(today, k) == PublishDate(log, now, today))
      && forall i :: 0 <= i < |log| && log[i].scheduledFor.At? && log[i].scheduledFor.ms > now ==>
        !(-HourMs < log[i].scheduledFor.ms - PublishDate(log, now, today) < HourMs)
    ensures (forall k :: 0 <= k < CandidateCount ==> !Available(CandidateSlot(today, k), now, ScheduledTimes(log, now))) ==>
      PublishDate(log, now, today) == now + DayMs
  {
    var candidates := seq(CandidateCount, k requires 0 <= k => CandidateSlot(today, k));
    var scheduled := ScheduledTimes(log, now);
    var r := PublishDate(log, now, today);
    if exists k :: 0 <= k < CandidateCount && Available(CandidateSlot(today, k), now, scheduled) {
      var k0 :| 0 <= k0 < CandidateCount && Available(CandidateSlot(today, k0), now, scheduled);
      assert candidates[k0] == CandidateSlot(today, k0);
      var k :| 0 <= k < |candidates| && candidates[k] == r && Available(r, now, scheduled);
      assert CandidateSlot(today, k) == r;
      forall i | 0 <= i < |log| && log[i].scheduledFor.At? && log[i].scheduledFor.ms > now
        ensures !(-HourMs < log[i].scheduledFor.ms - r < HourMs)
      {
        var t := log[i].scheduledFor.ms;
        assert ScheduledValue(log[i]) == Some(t);
        assert t in scheduled;
        var j :| 0 <= j < |scheduled| && scheduled[j] == t;
      }
    } else {
      forall k | 0 <= k < |candidates|
        ensures !Available(candidates[k], now, scheduled)
      {
        assert candidates[k] == CandidateSlot(today, k);
      }
    }
  }

  // ----- Items named by the script -----

  /** One "■紹介するアイテム" line: an item's name and what it does. */
  datatype ItemDescription = ItemDescription(name: string, detail: string)

  /** An item section's name: its first highlight, else the second line of its text,
      else ""; with every `！` and `!` removed, then trimmed. */
  function ItemName(s: Section): string
  {
    var candidate :=
      if s.highlight.Some? && |s.highlight.value| > 0 && s.highlight.value[0] != "" then s.highlight.value[0]
      else
        var lines := Split(s.text, '\n');
        if |lines| > 1 then lines[1] else "";
    Trim(RemoveAll(RemoveAll(candidate, '！'), '!'))
  }

  /** `text.replace(/\n/g, '').split('！')[0]`: the text's first sentence, unwrapped. */
  function Headline(text: string): string
  {
    Split(RemoveAll(text, '\n'), '！')[0]
  }

  /** The section `i` places after `idx` is looked at: it exists and mentions 結果 or
      `！`, or it is the sixth one. */
  predicate DetailCandidate(sections: seq<Section>, idx: nat, i: nat)
  {
    idx + i < |sections|
    && (Contains(sections[idx + i].text, "結果") || Contains(sections[idx + i].text, "！") || i == 6)
  }

  /** The look-ahead from offset `i` on, `detail` being what the earlier offsets set:
      every candidate overwrites the detail, and one longer than 5 ends the search. */
  function LookAhead(sections: seq<Section>, idx: nat, i: nat, detail: string): string
    requires 1 <= i <= 7
    decreases 7 - i
  {
    if i == 7 then detail
    else if DetailCandidate(sections, idx, i) then
      var d := Headline(sections[idx + i].text);
      if |d| > 5 then d else LookAhead(sections, idx, i + 1, d)
    else LookAhead(sections, idx, i + 1, detail)
  }

  /** The look-ahead yields the detail it started with or the headline of a candidate
      at or after `i`. */
  lemma {:induction false} LookAheadResult(sections: seq<Section>, idx: nat, i: nat, detail: string)
    requires 1 <= i <= 7
    ensures var r := LookAhead(sections, idx, i, detail);
      r == detail || exists j :: i <= j <= 6 && DetailCandidate(sections, idx, j) && r == Headline(sections[idx + j].text)
    decreases 7 - i
  {
    if i < 7 {
      if DetailCandidate(sections, idx, i) {
        var d := Headline(sections[idx + i].text);
        if |d| <= 5 {
          LookAheadResult(sections, idx, i + 1, d);
        }
      } else {
        LookAheadResult(sections, idx, i + 1, detail);
      }
    }
  }

  /** When candidate `j` has a headline longer than 5, the look-ahead stops at the first
      candidate with such a headline, at `j` or before. */
  lemma {:induction false} LookAheadFirstLong(sections: seq<Section>, idx: nat, i: nat, detail: string, j: nat)
    requires 1 <= i <= j <= 6
    requires DetailCandidate(sections, idx, j) && |Headline(sections[idx + j].text)| > 5
    ensures exists j0 :: (i <= j0 <= j && DetailCandidate(sections, idx, j0)
                          && LookAhead(sections, idx, i, detail) == Headline(sections[idx + j0].text)
                          && |Headline(sections[idx + j0].text)| > 5)
    decreases 7 - i
  {
    if DetailCandidate(sections, idx, i) {
      var d := Headline(sections[idx + i].text);
      if |d| <= 5 {
        LookAheadFirstLong(sections, idx, i + 1, d, j);
      }
    } else {
      LookAheadFirstLong(sections, idx, i + 1, detail, j);
    }
  }

  /** The detail of the item introduced at section `idx`, or the default sentence. */
  function ItemDetail(sections: seq<Section>, idx: nat): (detail: string)
    ensures detail != ""
    ensures detail == DefaultDetail
      || exists j :: 1 <= j <= 6 && DetailCandidate(sections, idx, j) && detail == Headline(sections[idx + j].text)
  {
    var d := LookAhead(sections, idx, 1, "");
    LookAheadResult(sections, idx, 1, "");
    if d != "" then d else DefaultDetail
  }

  /** The look-ahead loop with its early `break`. */
  method FindDetail(sections: seq<Section>, idx: nat) returns (detail: string)
    ensures detail == LookAhead(sections, idx, 1, "")
  {
    detail := "";
    var i := 1;
    while i <= 6
      invariant 1 <= i <= 7
      invariant LookAhead(sections, idx, 1, "") == LookAhead(sections, idx, i, detail)
    {
      if idx + i < |sections| {
        var text := sections[idx + i].text;
        if Contains(text, "結果") || Contains(text, "！") || i == 6 {
          detail := Headline(text);
          if |detail| > 5 {
            return;
          }
        }
      }
      i := i + 1;
    }
  }

  function Names(items: seq<ItemDescription>): (names: seq<string>)
    ensures |names| == |items|
    ensures forall k :: 0 <= k < |items| ==> names[k] == items[k].name
  {
    if items == [] then [] else Names(items[..|items| - 1]) + [items[|items| - 1].name]
  }

  /** The item section `i` introduces: for a section the marker test accepts and whose
      name is not empty, that name with its detail. */
  function ItemAt(sections: seq<Section>, isItem: string -> bool, i: nat): Option<ItemDescription>
    requires i < |sections|
  {
    var name := ItemName(sections[i]);
    if isItem(sections[i].text) && name != "" then Some(ItemDescription(name, ItemDetail(sections, i)))
    else None
  }

  function NameOf(it: ItemDescription): string { it.name }

  /** What each of the first `n` sections introduces, in section order. */
  function IntroducedUpTo(sections: seq<Section>, isItem: string -> bool, n: nat): (intro: seq<Option<ItemDescription>>)
    requires n <= |sections|
    ensures |intro| == n
  {
    if n == 0 then [] else IntroducedUpTo(sections, isItem, n - 1) + [ItemAt(sections, isItem, n - 1)]
  }

  lemma {:induction false} IntroducedUpToAt(sections: seq<Section>, isItem: string -> bool, n: nat, i: nat)
    requires i < n <= |sections|
    ensures IntroducedUpTo(sections, isItem, n)[i] == ItemAt(sections, isItem, i)
  {
    if i < n - 1 {
      IntroducedUpToAt(sections, isItem, n - 1, i);
    }
  }

  /** The item list: the introduced items with repeated names dropped, each name kept
      with the detail of its first section. */
  function Extracted(intro: seq<Option<ItemDescription>>): seq<ItemDescription>
  {
    DedupBy(Somes(intro), NameOf)
  }

  /** Every extracted name is introduced by some section. */
  lemma ExtractedNamesIntroduced(intro: seq<Option<ItemDescription>>, name: string)
    requires name in Names(Extracted(intro))
    ensures exists i :: 0 <= i < |intro| && intro[i].Some? && intro[i].value.name == name
  {
    var kept := Extracted(intro);
    var k :| 0 <= k < |kept| && Names(kept)[k] == name;
    DedupByKeepsFirst(Somes(intro), NameOf, k);
    var it := kept[k];
    assert it in Somes(intro);
    InSomes(intro, it);
    var i :| 0 <= i < |intro| && intro[i] == Some(it);
  }

  /** Every introduced name is extracted. */
  lemma IntroducedNamesExtracted(intro: seq<Option<ItemDescription>>, i: nat)
    requires i < |intro| && intro[i].Some?
    ensures intro[i].value.name in Names(Extracted(intro))
  {
    var cands := Somes(intro);
    var kept := DedupBy(cands, NameOf);
    var it := intro[i].value;
    InSomes(intro, it);
    var c :| 0 <= c < |cands| && cands[c] == it;
    assert NameOf(cands[c]) == it.name;
    assert HasKey(kept, NameOf, it.name);
    var k :| 0 <= k < |kept| && NameOf(kept[k]) == it.name;
    assert Names(kept)[k] == it.name;
  }

  /** Extracted names never repeat. */
  lemma ExtractedNamesUnique(intro: seq<Option<ItemDescription>>, k: nat, k': nat)
    requires k < k' < |Extracted(intro)|
    ensures Extracted(intro)[k].name != Extracted(intro)[k'].name
  {
    assert NameOf(Extracted(intro)[k]) != NameOf(Extracted(intro)[k']);
  }

  /** Extracted items come in the order their names are first introduced, and each
      carries the detail of the first introduction of its name. */
  lemma ExtractedFirstSeen(intro: seq<Option<ItemDescription>>, m: nat, m': nat)
    requires m < m' < |Extracted(intro)|
    ensures var items := Extracted(intro);
      var cands := Somes(intro);
      && HasKey(cands, NameOf, items[m].name) && HasKey(cands, NameOf, items[m'].name)
      && FirstIndex(cands, NameOf, items[m].name) < FirstIndex(cands, NameOf, items[m'].name)
      && items[m] == cands[FirstIndex(cands, NameOf, items[m].name)]
  {
    var cands := Somes(intro);
    DedupByKeepsOrder(cands, NameOf, m, m');
    DedupByKeepsFirst(cands, NameOf, m);
  }

  /** The item section `idx` introduces, computed as the loop body does: the name
      first, the look-ahead for the detail only for an item with a name. */
  method IntroduceItem(sections: seq<Section>, isItem: string -> bool, idx: nat) returns (r: Option<ItemDescription>)
    requires idx < |sections|
    ensures r == ItemAt(sections, isItem, idx)
  {
    r := None;
    var section := sections[idx];
    if isItem(section.text) {
      var name := ItemName(section);
      if name != "" {
        var detail := FindDetail(sections, idx);
        if detail == "" {
          detail := DefaultDetail;
        }
        r := Some(ItemDescription(name, detail));
      }
    }
  }

  /** An item with a name is in the list iff the name is among its names. */
  lemma ListedNames(ds: seq<ItemDescription>, name: string)
    ensures HasKey(ds, NameOf, name) <==> name in Names(ds)
  {
    if name in Names(ds) {
      var k :| 0 <= k < |ds| && Names(ds)[k] == name;
      assert NameOf(ds[k]) == name;
    }
  }

  /** Keeping `introduced` unless its name is already listed. */
  method KeepNew(items: seq<string>, itemDescriptions: seq<ItemDescription>, introduced: Option<ItemDescription>,
                 ghost intro: seq<Option<ItemDescription>>)
    returns (items': seq<string>, itemDescriptions': seq<ItemDescription>)
    requires itemDescriptions == Extracted(intro)
    requires items == Names(itemDescriptions)
    ensures itemDescriptions' == Extracted(intro + [introduced])
    ensures items' == Names(itemDescriptions')
  {
    items', itemDescriptions' := items, itemDescriptions;
    assert (intro + [introduced])[..|intro|] == intro;
    assert Somes(intro + [introduced]) == Somes(intro) + match introduced { case Some(x) => [x] case None => [] };
    if introduced.Some? {
      var it := introduced.value;
      var cands := Somes(intro);
      assert (cands + [it])[..|cands|] == cands;
      ListedNames(itemDescriptions, it.name);
      assert DedupBy(cands + [it], NameOf)
        == if HasKey(itemDescriptions, NameOf, it.name) then itemDescriptions else itemDescriptions + [it];
      if it.name !in items {
        assert Names(itemDescriptions + [it]) == items + [it.name];
        items' := items + [it.name];
        itemDescriptions' := itemDescriptions + [it];
      }
    } else {
      assert Somes(intro + [introduced]) == Somes(intro);
    }
  }

  /** The section loop: keep each new non-empty item name with its detail. */
  method ExtractItems(sections: seq<Section>, isItem: string -> bool)
    returns (items: seq<string>, itemDescriptions: seq<ItemDescription>)
    ensures itemDescriptions == Extracted(IntroducedUpTo(sections, isItem, |sections|))
    ensures items == Names(itemDescriptions)
  {
    items := [];
    itemDescriptions := [];
    var idx := 0;
    while idx < |sections|
      invariant 0 <= idx <= |sections|
      invariant itemDescriptions == Extracted(IntroducedUpTo(sections, isItem, idx))
      invariant items == Names(itemDescriptions)
    {
      var introduced := IntroduceItem(sections, isItem, idx);
      items, itemDescriptions := KeepNew(items, itemDescriptions, introduced, IntroducedUpTo(sections, isItem, idx));
      idx := idx + 1;
    }
  }

  // ----- Metadata -----

  /** The upload metadata. Absent strings are "" and absent tags []. */
  datatype Metadata = Metadata(title: string, description: string, tags: seq<string>,
                               privacyStatus: string, publishAt: string)

  /** The metadata of a run. `block` is the input's `youtube` block, if any;
      `topicTitle` and `generatedTitle` are the two titles composed from the topic,
      `generatedDescription` the composed description, and `smartDate` the chosen
      publishing time as text. A block's non-empty fields win; a missing title or
      description is composed; without a publishing time the video is scheduled,
      and so private. */
  function ChooseMetadata(block: Option<Metadata>, topicTitle: string, generatedTitle: string,
                          generatedDescription: string, smartDate: string): (m: Metadata)
    ensures block.Some? && block.value.title != "" ==> m.title == block.value.title
    ensures block.Some? && block.value.description != "" ==> m.description == block.value.description
    ensures block.Some? && block.value.title == "" ==>
      m.title == if topicTitle != "" then topicTitle else generatedTitle
    ensures block.Some? && block.value.description == "" ==> m.description == generatedDescription
    ensures m.tags == if block.Some? then block.value.tags else []
    ensures block.Some? && block.value.publishAt != "" ==>
      m.publishAt == block.value.publishAt
      && m.privacyStatus == (if block.value.privacyStatus != "" then block.value.privacyStatus else DefaultPrivacy)
    ensures block.None? || block.value.publishAt == "" ==> m.publishAt == smartDate && m.privacyStatus == DefaultPrivacy
    ensures block.None? ==> m.title == generatedTitle && m.description == generatedDescription
  {
    var title0 := if block.Some? then (if block.value.title != "" then block.value.title else topicTitle) else "";
    var description0 := if block.Some? then block.value.description else "";
    var privacy0 := if block.Some? && block.value.privacyStatus != "" then block.value.privacyStatus else DefaultPrivacy;
    var publish0 := if block.Some? then block.value.publishAt else "";
    var title := if title0 != "" then title0 else generatedTitle;
    var description := if description0 != "" then description0 else generatedDescription;
    if publish0 == "" then Metadata(title, description, if block.Some? then block.value.tags else [], DefaultPrivacy, smartDate)
    else Metadata(title, description, if block.Some? then block.value.tags else [], privacy0, publish0)
  }

  /** The `youtube` block of input.json, updated in place. */
  class YoutubeBlock {
    var title: string
    var description: string
    var tags: seq<string>
    var privacyStatus: string
    var publishAt: string

    constructor (m: Metadata)
      ensures Fields() == m
    {
      title := m.title;
      description := m.description;
      tags := m.tags;
      privacyStatus := m.privacyStatus;
      publishAt := m.publishAt;
    }

    function Fields(): Metadata
      reads this
    {
      Metadata(title, description, tags, privacyStatus, publishAt)
    }

    /** The metadata-only rewrite: every field from `m`, except that the block's own
        privacy status and publishing time win when set. */
    method Replace(m: Metadata)
      modifies this
      ensures Fields() == Metadata(m.title, m.description, m.tags,
                                   if old(privacyStatus) != "" then old(privacyStatus) else m.privacyStatus,
                                   if old(publishAt) != "" then old(publishAt) else m.publishAt)
    {
      var keepPrivacy := if privacyStatus != "" then privacyStatus else m.privacyStatus;
      var keepPublish := if publishAt != "" then publishAt else m.publishAt;
      title := m.title;
      description := m.description;
      tags := m.tags;
      privacyStatus := keepPrivacy;
      publishAt := keepPublish;
    }

    /** Fill only the empty fields: title and description always, tags only with a
        non-empty list, the publishing time only with a non-empty one. `updated` tells
        whether any field was filled. */
    method FillMissing(m: Metadata) returns (updated: bool)
      modifies this
      ensures title == (if old(title) == "" then m.title else old(title))
      ensures description == (if old(description) == "" then m.description else old(description))
      ensures tags == (if |m.tags| > 0 && old(tags) == [] then m.tags else old(tags))
      ensures publishAt == (if old(publishAt) == "" && m.publishAt != "" then m.publishAt else old(publishAt))
      ensures privacyStatus == old(privacyStatus)
      ensures updated <==> old(title) == "" || old(description) == ""
                           || (|m.tags| > 0 && old(tags) == []) || (old(publishAt) == "" && m.publishAt != "")
    {
      updated := false;
      if title == "" { title := m.title; updated := true; }
      if description == "" { description := m.description; updated := true; }
      if |m.tags| > 0 && tags == [] { tags := m.tags; updated := true; }
      if publishAt == "" && m.publishAt != "" { publishAt := m.publishAt; updated := true; }
    }
  }

  /** The write-back before the upload: without a block, a new one holding `m`; in
      metadata-only mode, the block rewritten; otherwise only its empty fields filled.
      `written` tells whether input.json is rewritten. */
  method WriteBackMetadata(block: YoutubeBlock?, metadataOnly: bool, m: Metadata)
    returns (result: YoutubeBlock, written: bool)
    modifies block
    ensures block == null ==> fresh(result) && result.Fields() == m && written
    ensures block != null ==> result == block
    ensures block != null && metadataOnly ==> written
    ensures block != null && metadataOnly ==>
      result.Fields() == Metadata(m.title, m.description, m.tags,
                                  if old(block.privacyStatus) != "" then old(block.privacyStatus) else m.privacyStatus,
                                  if old(block.publishAt) != "" then old(block.publishAt) else m.publishAt)
    ensures block != null && !metadataOnly ==>
      && result.title == (if old(block.title) == "" then m.title else old(block.title))
      && result.description == (if old(block.description) == "" then m.description else old(block.description))
      && result.tags == (if |m.tags| > 0 && old(block.tags) == [] then m.tags else old(block.tags))
      && result.publishAt == (if old(block.publishAt) == "" && m.publishAt != "" then m.publishAt else old(block.publishAt))
      && result.privacyStatus == old(block.privacyStatus)
    ensures block != null && !metadataOnly ==>
      (written <==> old(block.title) == "" || old(block.description) == ""
                    || (|m.tags| > 0 && old(block.tags) == []) || (old(block.publishAt) == "" && m.publishAt != ""))
  {
    if block == null {
      result := new YoutubeBlock(m);
      written := true;
    } else if metadataOnly {
      block.Replace(m);
      result := block;
      written := true;
    } else {
      written := block.FillMissing(m);
      result := block;
    }
  }

  // ----- The uploaded snippet -----

  /** `s.substring(0, limit)`: the longest prefix of `s` of at most `limit` characters. */
  function Truncate(s: string, limit: nat): (r: string)
    ensures |r| <= limit && |r| <= |s|
    ensures r == s[..|r|]
    ensures |r| == limit || r == s
  {
    if |s| <= limit then s else s[..limit]
  }

  /** The title and description sent to the API: at most 100 and 5000 characters, each
      a prefix of the original, untouched when short enough. */
  lemma SnippetLimits(m: Metadata)
    ensures |Truncate(m.title, TitleLimit)| <= 100 && StartsWith(m.title, Truncate(m.title, TitleLimit))
    ensures |Truncate(m.description, DescriptionLimit)| <= 5000
      && StartsWith(m.description, Truncate(m.description, DescriptionLimit))
    ensures |m.title| <= 100 ==> Truncate(m.title, TitleLimit) == m.title
  {
  }
}
