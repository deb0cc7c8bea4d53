/** The script validator: every slide's CSS file and every section of a project's
    script are checked against a fixed set of rules. Each rule that fires adds a
    diagnostic; some diagnostics are errors and some only warnings, and the project
    passes iff no error was reported.

    The CSS files are an input: a map from a slide's `css` field to the file's
    contents, absent when the file does not exist. */
module ValidateInput {
  import opened Common
  import opened Text
  import opened VideoTypes

  /** Longest caption line allowed, and the caption length above which a warning is
      given. */
  const MaxLine: nat := 35
  const MinSections: nat := 3
  const IconClass: string := ".material-symbols-outlined"
  const IconFontSingle: string := "font-family: 'Material Symbols Outlined'"
  const IconFontDouble: string := "font-family: \"Material Symbols Outlined\""

  /** What a rule found. Section and line numbers are as printed: sections from 0,
      lines from 1. */
  datatype Issue =
    | CssMissing(slideId: string)
    | IconFontMissing(slideId: string)
    | LongText(section: nat, length: nat)
    | LongLine(section: nat, line: nat, length: nat)
    | ProhibitedPunctuation(section: nat)
    | Spaces(section: nat)
    | Alphabet(section: nat)
    | DensePunctuation(section: nat, count: nat)
    | ConsecutivePunctuation(section: nat)
    | TooFewSections(count: nat)

  datatype Diagnostic = Error(issue: Issue) | Warning(issue: Issue)

  /** Some diagnostic of `ds` is an error. */
  predicate AnyError(ds: seq<Diagnostic>)
  {
    ds != [] && (ds[0].Error? || AnyError(ds[1..]))
  }

  lemma {:induction false} AnyErrorIff(ds: seq<Diagnostic>)
    ensures AnyError(ds) <==> exists k :: 0 <= k < |ds| && ds[k].Error?
  {
    if ds != [] {
      AnyErrorIff(ds[1..]);
      if exists k :: 0 <= k < |ds| && ds[k].Error? {
        var k :| 0 <= k < |ds| && ds[k].Error?;
        if k > 0 {
          assert ds[1..][k - 1] == ds[k];
        }
      }
    }
  }

  lemma {:induction false} AnyErrorAppend(a: seq<Diagnostic>, b: seq<Diagnostic>)
    ensures AnyError(a + b) <==> AnyError(a) || AnyError(b)
  {
    if a != [] {
      AnyErrorAppend(a[1..], b);
      assert (a + b)[1..] == a[1..] + b;
    } else {
      assert a + b == b;
    }
  }

  // ----- The icon-font rule of a slide's CSS -----

  /** The first position at or after `j` that is not white space (`\s*`). */
  function SkipSpaces(s: string, j: nat): (k: nat)
    requires j <= |s|
    ensures j <= k <= |s|
    ensures forall m :: j <= m < k ==> IsJsSpace(s[m])
    ensures k < |s| ==> !IsJsSpace(s[k])
    decreases |s| - j
  {
    if j < |s| && IsJsSpace(s[j]) then SkipSpaces(s, j + 1) else j
  }

  /** The first `}` at or after `j`, or `|s|` when there is none (`[^}]*}`). */
  function CloseAfter(s: string, j: nat): (k: nat)
    requires j <= |s|
    ensures j <= k <= |s|
    ensures forall m :: j <= m < k ==> s[m] != '}'
    ensures k < |s| ==> s[k] == '}'
    decreases |s| - j
  {
    if j < |s| && s[j] != '}' then CloseAfter(s, j + 1) else j
  }

  /** The pattern `\.material-symbols-outlined\s*{([^}]*)}` matches `css` at `i`, with
      `body` as its captured group: the class name, white space up to `k`, then
      `{`, the brace-free body and `}`. */
  predicate MatchesAt(css: string, i: int, k: int, body: string)
  {
    && OccursAt(css, IconClass, i)
    && i + |IconClass| <= k
    && OccursAt(css, "{" + body + "}", k)
    && (forall m :: i + |IconClass| <= m < k ==> IsJsSpace(css[m]))
    && '}' !in body
  }

  /** The body the pattern captures when matched at `i`, if it matches there. */
  function RuleBodyAt(css: string, i: nat): (r: Option<string>)
  {
    if OccursAt(css, IconClass, i) then
      var k := SkipSpaces(css, i + |IconClass|);
      if k < |css| && css[k] == '{' then
        var e := CloseAfter(css, k + 1);
        if e < |css| then Some(css[k + 1..e]) else None
      else None
    else None
  }

  /** What the scan captures at `i` is a match of the pattern there. */
  lemma RuleBodyAtSound(css: string, i: nat, body: string)
    requires RuleBodyAt(css, i) == Some(body)
    ensures exists k :: MatchesAt(css, i, k, body)
  {
    var k := SkipSpaces(css, i + |IconClass|);
    var e := CloseAfter(css, k + 1);
    assert css[k..e + 1] == "{" + body + "}";
    assert MatchesAt(css, i, k, body);
  }

  /** A match of the pattern at `i` is what the scan captures there. */
  lemma RuleBodyAtComplete(css: string, i: nat, k: int, body: string)
    requires MatchesAt(css, i, k, body)
    ensures RuleBodyAt(css, i) == Some(body)
  {
    assert css[k] == ("{" + body + "}")[0];
    assert SkipSpaces(css, i + |IconClass|) == k;
    var e := k + 1 + |body|;
    assert css[e] == ("{" + body + "}")[|body| + 1];
    forall m | 0 <= m < |body|
      ensures css[k + 1 + m] == body[m]
    {
      assert css[k + 1 + m] == ("{" + body + "}")[m + 1];
    }
    assert CloseAfter(css, k + 1) == e;
    assert css[k + 1..e] == body;
  }

  /** The scan finds exactly the matches of the pattern: it captures `body` at `i`
      iff the pattern matches there with that body. */
  lemma RuleBodyAtIff(css: string, i: nat, body: string)
    ensures RuleBodyAt(css, i) == Some(body) <==> exists k :: MatchesAt(css, i, k, body)
  {
    if RuleBodyAt(css, i) == Some(body) {
      RuleBodyAtSound(css, i, body);
    }
    if exists k :: MatchesAt(css, i, k, body) {
      var k :| MatchesAt(css, i, k, body);
      RuleBodyAtComplete(css, i, k, body);
    }
  }

  /** The leftmost position at or after `i` where the pattern matches, or `|css|`. */
  function FirstMatch(css: string, i: nat): (j: nat)
    requires i <= |css|
    ensures i <= j <= |css|
    ensures forall m :: i <= m < j ==> RuleBodyAt(css, m).None?
    ensures j < |css| ==> RuleBodyAt(css, j).Some?
    decreases |css| - i
  {
    if i == |css| || RuleBodyAt(css, i).Some? then i else FirstMatch(css, i + 1)
  }

  /** What `String.prototype.match` captures: the body of the leftmost match. */
  function FirstRuleBody(css: string): Option<string>
  {
    var j := FirstMatch(css, 0);
    if j < |css| then RuleBodyAt(css, j) else None
  }

  /** No match of the pattern starts before `j` when the scan finds none there. */
  lemma NoMatchBefore(css: string, j: nat)
    requires j <= |css|
    requires forall m :: 0 <= m < j ==> RuleBodyAt(css, m).None?
    ensures forall m, k, b :: m < j ==> !MatchesAt(css, m, k, b)
  {
    forall m, k, b | m < j
      ensures !MatchesAt(css, m, k, b)
    {
      if MatchesAt(css, m, k, b) {
        RuleBodyAtComplete(css, m, k, b);
      }
    }
  }

  /** The captured body is that of the leftmost match of the pattern, and nothing is
      captured iff the pattern matches nowhere. */
  lemma FirstRuleBodyIsLeftmost(css: string)
    ensures FirstRuleBody(css).Some? ==>
      exists i, k :: MatchesAt(css, i, k, FirstRuleBody(css).value)
                     && forall m, k', b :: m < i ==> !MatchesAt(css, m, k', b)
    ensures FirstRuleBody(css).None? ==> forall i, k, b :: !MatchesAt(css, i, k, b)
  {
    var j := FirstMatch(css, 0);
    NoMatchBefore(css, j);
    if j < |css| {
      var body := RuleBodyAt(css, j).value;
      RuleBodyAtSound(css, j, body);
      var k :| MatchesAt(css, j, k, body);
      assert MatchesAt(css, j, k, FirstRuleBody(css).value);
    }
  }

  /** A match implies the class name occurs, so the `includes` test in front of the
      pattern never rejects a file the pattern would match. */
  lemma MatchNeedsClass(css: string)
    ensures FirstRuleBody(css).Some? ==> Contains(css, IconClass)
  {
    if FirstRuleBody(css).Some? {
      var j := FirstMatch(css, 0);
      ContainsAt(css, IconClass);
      assert OccursAt(css, IconClass, j);
    }
  }

  /** The rule body names the icon font, in single or double quotes. */
  predicate DeclaresIconFont(body: string)
  {
    Contains(body, IconFontSingle) || Contains(body, IconFontDouble)
  }

  /** What the CSS check reports for one slide: nothing without a `css` field, an error
      when the file is missing, an error when the first icon-class rule does not
      declare the icon font, and nothing otherwise. */
  function CssIssue(slide: SlideDef, files: map<string, string>): (r: Option<Diagnostic>)
    ensures r.Some? ==> r.value.Error?
    ensures r == Some(Error(CssMissing(slide.id))) <==> slide.css != "" && slide.css !in files
    ensures r == Some(Error(IconFontMissing(slide.id))) <==>
      slide.css != "" && slide.css in files &&
      exists body :: FirstRuleBody(files[slide.css]) == Some(body) && !DeclaresIconFont(body)
    ensures r.Some? ==> r == Some(Error(CssMissing(slide.id))) || r == Some(Error(IconFontMissing(slide.id)))
  {
    if slide.css == "" then None
    else if slide.css !in files then Some(Error(CssMissing(slide.id)))
    else
      var content := files[slide.css];
      MatchNeedsClass(content);
      if Contains(content, IconClass) then
        match FirstRuleBody(content)
        case Some(body) => if DeclaresIconFont(body) then None else Some(Error(IconFontMissing(slide.id)))
        case None => None
      else None
  }

  // ----- The rules of one section -----

  predicate IsProhibited(c: char) { c in "、。？?！!" }
  predicate IsPause(c: char) { c == '、' || c == '。' }
  predicate IsAsciiLetter(c: char) { 'a' <= c <= 'z' || 'A' <= c <= 'Z' }

  /** Some character of `s` satisfies `p` (a one-character-class regex test). */
  predicate AnyChar(s: string, p: char -> bool)
  {
    s != [] && (p(s[0]) || AnyChar(s[1..], p))
  }

  lemma {:induction false} AnyCharIff(s: string, p: char -> bool)
    ensures AnyChar(s, p) <==> exists k :: 0 <= k < |s| && p(s[k])
  {
    if s != [] {
      AnyCharIff(s[1..], p);
      if exists k :: 0 <= k < |s| && p(s[k]) {
        var k :| 0 <= k < |s| && p(s[k]);
        if k > 0 {
          assert s[1..][k - 1] == s[k];
        }
      }
    }
  }

  /** Two pauses in a row (`[、。]{2,}`). */
  predicate HasDoublePause(s: string)
  {
    |s| >= 2 && ((IsPause(s[0]) && IsPause(s[1])) || HasDoublePause(s[1..]))
  }

  /** The scan finds two pauses in a row iff some adjacent pair is two pauses. */
  lemma {:induction false} HasDoublePauseIff(s: string)
    ensures HasDoublePause(s) <==> exists k :: 0 <= k < |s| - 1 && IsPause(s[k]) && IsPause(s[k + 1])
  {
    if |s| >= 2 {
      HasDoublePauseIff(s[1..]);
      if exists k :: 0 <= k < |s| - 1 && IsPause(s[k]) && IsPause(s[k + 1]) {
        var k :| 0 <= k < |s| - 1 && IsPause(s[k]) && IsPause(s[k + 1]);
        if k > 0 {
          assert s[1..][k - 1] == s[k] && s[1..][k] == s[k + 1];
        }
      }
      if HasDoublePause(s[1..]) {
        var k :| 0 <= k < |s| - 2 && IsPause(s[1..][k]) && IsPause(s[1..][k + 1]);
        assert IsPause(s[k + 1]) && IsPause(s[k + 2]);
      }
    }
  }

  /** What each rule's test finds in one section: the text's length with and without
      newlines, its lines, whether it has prohibited punctuation, spaces or ASCII
      letters, and, when the speech text is non-empty, its pause count and whether two
      pauses stand in a row. */
  datatype SectionChecks = SectionChecks(
    textLength: nat,
    strippedLength: nat,
    lines: seq<string>,
    prohibited: bool,
    spaces: bool,
    letters: bool,
    speechChecked: bool,
    pauses: nat,
    doublePause: bool)

  function ChecksOf(s: Section): SectionChecks
  {
    SectionChecks(
      |s.text|,
      |RemoveAll(s.text, '\n')|,
      Split(s.text, '\n'),
      AnyChar(s.text, IsProhibited),
      Contains(s.text, " ") || Contains(s.text, "　"),
      AnyChar(s.text, IsAsciiLetter),
      s.speechText != "",
      CountWhere(s.speechText, IsPause),
      HasDoublePause(s.speechText))
  }

  /** The errors for the first `n` lines of section `idx`: one per line over the limit. */
  function LineIssues(idx: nat, lines: seq<string>, n: nat): seq<Diagnostic>
    requires n <= |lines|
  {
    if n == 0 then []
    else LineIssues(idx, lines, n - 1)
         + (if |lines[n - 1]| > MaxLine then [Error(LongLine(idx, n, |lines[n - 1]|))] else [])
  }

  /** The line check reports an error iff one of the lines is over the limit, names
      each such line by its number and length, and reports nothing else. */
  lemma {:induction false} LineIssuesErrors(idx: nat, lines: seq<string>, n: nat)
    requires n <= |lines|
    ensures AnyError(LineIssues(idx, lines, n)) <==> exists j :: 0 <= j < n && |lines[j]| > MaxLine
    ensures forall j :: 0 <= j < n && |lines[j]| > MaxLine ==>
      Error(LongLine(idx, j + 1, |lines[j]|)) in LineIssues(idx, lines, n)
    ensures forall d :: d in LineIssues(idx, lines, n) ==> d.Error? && d.issue.LongLine?
  {
    if n > 0 {
      LineIssuesErrors(idx, lines, n - 1);
      var tail := if |lines[n - 1]| > MaxLine then [Error(LongLine(idx, n, |lines[n - 1]|))] else [];
      AnyErrorAppend(LineIssues(idx, lines, n - 1), tail);
      assert AnyError(tail) <==> |lines[n - 1]| > MaxLine;
      if exists j :: 0 <= j < n && |lines[j]| > MaxLine {
        var j :| 0 <= j < n && |lines[j]| > MaxLine;
        assert j < n - 1 || AnyError(tail);
      }
    }
  }

  /** Some line is over the limit. */
  predicate LongLineIn(lines: seq<string>)
  {
    lines != [] && (|lines[0]| > MaxLine || LongLineIn(lines[1..]))
  }

  lemma {:induction false} LongLineInIff(lines: seq<string>)
    ensures LongLineIn(lines) <==> exists j :: 0 <= j < |lines| && |lines[j]| > MaxLine
  {
    if lines != [] {
      LongLineInIff(lines[1..]);
      if exists j :: 0 <= j < |lines| && |lines[j]| > MaxLine {
        var j :| 0 <= j < |lines| && |lines[j]| > MaxLine;
        if j > 0 {
          assert lines[1..][j - 1] == lines[j];
        }
      }
    }
  }

  /** A rule's diagnostic when its test holds, nothing otherwise. */
  function Flag(fires: bool, d: Diagnostic): seq<Diagnostic>
  {
    if fires then [d] else []
  }

  lemma FlagErrors(fires: bool, d: Diagnostic)
    ensures AnyError(Flag(fires, d)) <==> fires && d.Error?
  {
    if fires {
      assert Flag(fires, d)[1..] == [];
    }
  }

  /** The speech-text rules: a warning for two or more pauses, an error for two
      pauses in a row; an empty speech text is not checked. */
  function SpeechIssues(idx: nat, c: SectionChecks): seq<Diagnostic>
  {
    if !c.speechChecked then []
    else
      Flag(c.pauses >= 2, Warning(DensePunctuation(idx, c.pauses)))
      + Flag(c.doublePause, Error(ConsecutivePunctuation(idx)))
  }

  /** Every diagnostic for section `idx`, in the order the rules run. */
  function ReportFor(idx: nat, c: SectionChecks): seq<Diagnostic>
  {
    Flag(c.strippedLength > MaxLine, Warning(LongText(idx, c.textLength)))
    + LineIssues(idx, c.lines, |c.lines|)
    + Flag(c.prohibited, Error(ProhibitedPunctuation(idx)))
    + Flag(c.spaces, Warning(Spaces(idx)))
    + Flag(c.letters, Warning(Alphabet(idx)))
    + SpeechIssues(idx, c)
  }

  /** The error rules of a section fire: an over-long line, prohibited punctuation,
      or two pauses in a row in a checked speech text. */
  predicate FailsFor(c: SectionChecks)
  {
    || LongLineIn(c.lines)
    || c.prohibited
    || (c.speechChecked && c.doublePause)
  }

  lemma SpeechIssuesErrors(idx: nat, c: SectionChecks)
    ensures AnyError(SpeechIssues(idx, c)) <==> c.speechChecked && c.doublePause
  {
    if c.speechChecked {
      var dense := Flag(c.pauses >= 2, Warning(DensePunctuation(idx, c.pauses)));
      var double := Flag(c.doublePause, Error(ConsecutivePunctuation(idx)));
      AnyErrorAppend(dense, double);
      FlagErrors(c.pauses >= 2, Warning(DensePunctuation(idx, c.pauses)));
      FlagErrors(c.doublePause, Error(ConsecutivePunctuation(idx)));
    }
  }

  /** A section's report holds an error iff one of its error rules fires: the length
      warning, spaces, letters and a high pause count never make it fail. */
  lemma ReportForErrors(idx: nat, c: SectionChecks)
    ensures AnyError(ReportFor(idx, c)) <==> FailsFor(c)
  {
    var a := Flag(c.strippedLength > MaxLine, Warning(LongText(idx, c.textLength)));
    var b := LineIssues(idx, c.lines, |c.lines|);
    var p := Flag(c.prohibited, Error(ProhibitedPunctuation(idx)));
    var d := Flag(c.spaces, Warning(Spaces(idx)));
    var e := Flag(c.letters, Warning(Alphabet(idx)));
    var f := SpeechIssues(idx, c);
    assert ReportFor(idx, c) == a + b + p + d + e + f;
    LineIssuesErrors(idx, c.lines, |c.lines|);
    LongLineInIff(c.lines);
    SpeechIssuesErrors(idx, c);
    FlagErrors(c.strippedLength > MaxLine, Warning(LongText(idx, c.textLength)));
    FlagErrors(c.prohibited, Error(ProhibitedPunctuation(idx)));
    FlagErrors(c.spaces, Warning(Spaces(idx)));
    FlagErrors(c.letters, Warning(Alphabet(idx)));
    AnyErrorAppend(a, b);
    AnyErrorAppend(a + b, p);
    AnyErrorAppend(a + b + p, d);
    AnyErrorAppend(a + b + p + d, e);
    AnyErrorAppend(a + b + p + d + e, f);
  }

  /** The warnings of a section are exactly those whose tests hold: a long text,
      spaces, ASCII letters, and two or more pauses in a checked speech text. */
  lemma ReportForWarnings(idx: nat, c: SectionChecks, w: Issue)
    ensures Warning(w) in ReportFor(idx, c) <==>
      || (w == LongText(idx, c.textLength) && c.strippedLength > MaxLine)
      || (w == Spaces(idx) && c.spaces)
      || (w == Alphabet(idx) && c.letters)
      || (w == DensePunctuation(idx, c.pauses) && c.speechChecked && c.pauses >= 2)
  {
    var a := Flag(c.strippedLength > MaxLine, Warning(LongText(idx, c.textLength)));
    var b := LineIssues(idx, c.lines, |c.lines|);
    var p := Flag(c.prohibited, Error(ProhibitedPunctuation(idx)));
    var d := Flag(c.spaces, Warning(Spaces(idx)));
    var e := Flag(c.letters, Warning(Alphabet(idx)));
    var f := SpeechIssues(idx, c);
    assert ReportFor(idx, c) == a + b + p + d + e + f;
    LineIssuesErrors(idx, c.lines, |c.lines|);
    assert Warning(w) !in b && Warning(w) !in p;
  }

  /** The checks of a section are the rules' tests on its text and speech text; an
      empty speech text has no pauses. */
  lemma ChecksOfSection(s: Section)
    ensures ChecksOf(s).strippedLength == |Concat(ChecksOf(s).lines)|
    ensures Join(ChecksOf(s).lines, "\n") == s.text
    ensures ChecksOf(s).speechChecked || ChecksOf(s).pauses == 0
  {
    JoinSplit(s.text, '\n');
    RemoveAllIsConcatOfSplit(s.text, '\n');
  }

  // ----- The whole project -----

  /** The CSS diagnostics of the first `n` slides. */
  function CssReport(slides: seq<SlideDef>, files: map<string, string>, n: nat): seq<Diagnostic>
    requires n <= |slides|
  {
    if n == 0 then []
    else CssReport(slides, files, n - 1)
         + match CssIssue(slides[n - 1], files) { case Some(d) => [d] case None => [] }
  }

  /** The checks of every section, in order. */
  function ChecksAll(sections: seq<Section>): (cs: seq<SectionChecks>)
    ensures |cs| == |sections|
  {
    if sections == [] then []
    else ChecksAll(sections[..|sections| - 1]) + [ChecksOf(sections[|sections| - 1])]
  }

  lemma {:induction false} ChecksAllAt(sections: seq<Section>, i: nat)
    requires i < |sections|
    ensures ChecksAll(sections)[i] == ChecksOf(sections[i])
  {
    if i < |sections| - 1 {
      var pre := sections[..|sections| - 1];
      ChecksAllAt(pre, i);
      assert pre[i] == sections[i];
    }
  }

  /** The report of each section, given its checks. */
  function SectionReports(cs: seq<SectionChecks>): (rs: seq<seq<Diagnostic>>)
    ensures |rs| == |cs|
    ensures forall j :: 0 <= j < |cs| ==> rs[j] == ReportFor(j, cs[j])
  {
    seq(|cs|, j requires 0 <= j < |cs| => ReportFor(j, cs[j]))
  }

  /** The first `n` reports, one after the other. */
  function Flatten(rs: seq<seq<Diagnostic>>, n: nat): seq<Diagnostic>
    requires n <= |rs|
  {
    if n == 0 then [] else Flatten(rs, n - 1) + rs[n - 1]
  }

  lemma {:induction false} FlattenErrors(rs: seq<seq<Diagnostic>>, n: nat)
    requires n <= |rs|
    ensures AnyError(Flatten(rs, n)) <==> exists j :: 0 <= j < n && AnyError(rs[j])
  {
    if n > 0 {
      FlattenErrors(rs, n - 1);
      AnyErrorAppend(Flatten(rs, n - 1), rs[n - 1]);
      if exists j :: 0 <= j < n && AnyError(rs[j]) {
        var j :| 0 <= j < n && AnyError(rs[j]);
        assert j < n - 1 || AnyError(rs[n - 1]);
      }
    }
  }

  /** The section-count rule. */
  function CountIssues(sections: seq<Section>): seq<Diagnostic>
  {
    Flag(|sections| < MinSections, Error(TooFewSections(|sections|)))
  }

  /** The slide list the validator reads: the top-level `slides`, or none. */
  function SlidesOf(input: InputJson): seq<SlideDef>
  {
    if input.slides.Some? then input.slides.value else []
  }

  /** Everything the validator reports, in order: slides, sections, section count. */
  function Report(input: InputJson, files: map<string, string>): seq<Diagnostic>
  {
    var slides := SlidesOf(input);
    CssReport(slides, files, |slides|)
    + Flatten(SectionReports(ChecksAll(input.script.sections)), |input.script.sections|)
    + CountIssues(input.script.sections)
  }

  /** Some error rule fires for the project. */
  predicate Fails(input: InputJson, files: map<string, string>)
  {
    var slides := SlidesOf(input);
    var cs := ChecksAll(input.script.sections);
    || (exists j :: 0 <= j < |slides| && CssIssue(slides[j], files).Some?)
    || (exists j :: 0 <= j < |cs| && FailsFor(cs[j]))
    || |cs| < MinSections
  }

  lemma {:induction false} CssReportErrors(slides: seq<SlideDef>, files: map<string, string>, n: nat)
    requires n <= |slides|
    ensures AnyError(CssReport(slides, files, n)) <==> exists j :: 0 <= j < n && CssIssue(slides[j], files).Some?
  {
    if n > 0 {
      CssReportErrors(slides, files, n - 1);
      var issue := CssIssue(slides[n - 1], files);
      var tail := match issue { case Some(d) => [d] case None => [] };
      AnyErrorAppend(CssReport(slides, files, n - 1), tail);
      if issue.Some? {
        assert tail[0].Error?;
      }
    }
  }

  /** The section reports hold an error iff some section's error rules fire. */
  lemma SectionsErrors(cs: seq<SectionChecks>)
    ensures AnyError(Flatten(SectionReports(cs), |cs|)) <==> exists j :: 0 <= j < |cs| && FailsFor(cs[j])
  {
    var rs := SectionReports(cs);
    FlattenErrors(rs, |cs|);
    forall j | 0 <= j < |cs|
      ensures AnyError(rs[j]) <==> FailsFor(cs[j])
    {
      ReportForErrors(j, cs[j]);
    }
  }

  /** The report holds an error iff some error rule fires. */
  lemma ReportErrors(input: InputJson, files: map<string, string>)
    ensures AnyError(Report(input, files)) <==> Fails(input, files)
  {
    var slides := SlidesOf(input);
    var sections := input.script.sections;
    var cs := ChecksAll(sections);
    var css := CssReport(slides, files, |slides|);
    var secs := Flatten(SectionReports(cs), |sections|);
    assert Report(input, files) == css + secs + CountIssues(sections);
    CssReportErrors(slides, files, |slides|);
    SectionsErrors(cs);
    AnyErrorAppend(css, secs);
    AnyErrorAppend(css + secs, CountIssues(sections));
    FlagErrors(|sections| < MinSections, Error(TooFewSections(|sections|)));
  }

  // ----- The validator -----

  /** The line-length check of one section, line by line. */
  method CheckLines(idx: nat, lines: seq<string>) returns (ds: seq<Diagnostic>, err: bool)
    ensures ds == LineIssues(idx, lines, |lines|)
    ensures err <==> exists j :: 0 <= j < |lines| && |lines[j]| > MaxLine
  {
    ds := [];
    err := false;
    var j := 0;
    while j < |lines|
      invariant j <= |lines|
      invariant ds == LineIssues(idx, lines, j)
      invariant err <==> exists m :: 0 <= m < j && |lines[m]| > MaxLine
    {
      if |lines[j]| > MaxLine {
        ds := ds + [Error(LongLine(idx, j + 1, |lines[j]|))];
        err := true;
      }
      j := j + 1;
    }
  }

  /** The speech-text rules of one section. */
  method CheckSpeech(idx: nat, c: SectionChecks) returns (ds: seq<Diagnostic>, err: bool)
    ensures ds == SpeechIssues(idx, c)
    ensures err <==> c.speechChecked && c.doublePause
  {
    ds := [];
    err := false;
    if c.speechChecked {
      if c.pauses >= 2 {
        ds := ds + [Warning(DensePunctuation(idx, c.pauses))];
      }
      if c.doublePause {
        ds := ds + [Error(ConsecutivePunctuation(idx))];
        err := true;
      }
    }
  }

  /** All rules of one section, in order; `err` is set by the error rules only. */
  method CheckSection(idx: nat, c: SectionChecks) returns (ds: seq<Diagnostic>, err: bool)
    ensures ds == ReportFor(idx, c)
    ensures err <==> FailsFor(c)
  {
    ds := [];
    err := false;
    if c.strippedLength > MaxLine {
      ds := ds + [Warning(LongText(idx, c.textLength))];
    }
    assert ds == Flag(c.strippedLength > MaxLine, Warning(LongText(idx, c.textLength)));
    var lineIssues, longLine := CheckLines(idx, c.lines);
    LongLineInIff(c.lines);
    ds := ds + lineIssues;
    err := err || longLine;
    ghost var before := ds;
    if c.prohibited {
      ds := ds + [Error(ProhibitedPunctuation(idx))];
      err := true;
    }
    assert ds == before + Flag(c.prohibited, Error(ProhibitedPunctuation(idx)));
    before := ds;
    if c.spaces {
      ds := ds + [Warning(Spaces(idx))];
    }
    assert ds == before + Flag(c.spaces, Warning(Spaces(idx)));
    before := ds;
    if c.letters {
      ds := ds + [Warning(Alphabet(idx))];
    }
    assert ds == before + Flag(c.letters, Warning(Alphabet(idx)));
    var speechIssues, doublePause := CheckSpeech(idx, c);
    ds := ds + speechIssues;
    err := err || doublePause;
  }

  /** The CSS check of every slide, in order. */
  method CheckSlides(slides: seq<SlideDef>, files: map<string, string>) returns (ds: seq<Diagnostic>, err: bool)
    ensures ds == CssReport(slides, files, |slides|)
    ensures err <==> AnyError(ds)
  {
    ds := [];
    err := false;
    var i := 0;
    while i < |slides|
      invariant i <= |slides|
      invariant ds == CssReport(slides, files, i)
      invariant err <==> AnyError(ds)
    {
      var issue := CssIssue(slides[i], files);
      if issue.Some? {
        FlagErrors(true, issue.value);
        AnyErrorAppend(ds, [issue.value]);
        ds := ds + [issue.value];
        err := true;
      } else {
        assert ds + [] == ds;
      }
      i := i + 1;
    }
  }

  /** The rules of section `n`, appended to the diagnostics of the sections before it. */
  method SectionStep(sections: seq<Section>, n: nat, ds: seq<Diagnostic>, err: bool)
    returns (ds': seq<Diagnostic>, err': bool)
    requires n < |sections|
    requires ds == Flatten(SectionReports(ChecksAll(sections)), n)
    requires err <==> AnyError(ds)
    ensures ds' == Flatten(SectionReports(ChecksAll(sections)), n + 1)
    ensures err' <==> AnyError(ds')
  {
    var c := ChecksOf(sections[n]);
    ChecksAllAt(sections, n);
    assert SectionReports(ChecksAll(sections))[n] == ReportFor(n, c);
    var sectionIssues, sectionError := CheckSection(n, c);
    ReportForErrors(n, c);
    AnyErrorAppend(ds, sectionIssues);
    ds' := ds + sectionIssues;
    err' := err || sectionError;
  }

  /** The rules of every section, in order. */
  method CheckSections(sections: seq<Section>) returns (ds: seq<Diagnostic>, err: bool)
    ensures ds == Flatten(SectionReports(ChecksAll(sections)), |sections|)
    ensures err <==> AnyError(ds)
  {
    ds := [];
    err := false;
    var n := 0;
    while n < |sections|
      invariant n <= |sections|
      invariant ds == Flatten(SectionReports(ChecksAll(sections)), n)
      invariant err <==> AnyError(ds)
    {
      ds, err := SectionStep(sections, n, ds, err);
      n := n + 1;
    }
  }

  /** The validator: checks every slide's CSS, then every section, then the section
      count, collecting the diagnostics and the error flag. The project passes iff
      `hasError` stays false, which happens iff no error rule fires. */
  method Validate(input: InputJson, files: map<string, string>) returns (diags: seq<Diagnostic>, hasError: bool)
    ensures diags == Report(input, files)
    ensures hasError <==> AnyError(diags)
    ensures hasError <==> Fails(input, files)
  {
    var sections := input.script.sections;
    var cssIssues, cssError := CheckSlides(SlidesOf(input), files);
    var sectionIssues, sectionError := CheckSections(sections);
    AnyErrorAppend(cssIssues, sectionIssues);
    diags := cssIssues + sectionIssues;
    hasError := cssError || sectionError;
    FlagErrors(|sections| < MinSections, Error(TooFewSections(|sections|)));
    AnyErrorAppend(diags, CountIssues(sections));
    if |sections| < MinSections {
      diags := diags + [Error(TooFewSections(|sections|))];
      hasError := true;
    } else {
      assert diags + CountIssues(sections) == diags;
    }
    ReportErrors(input, files);
  }
}
