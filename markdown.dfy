/** `MarkdownFixer` of the desktop client: the classification of the last
    line of a text (`analyzeText`), the decisions drawn from two
    classifications (`calculateNewlines`, `calculateIndent`, the `should*`
    helpers, `determineFormatting`) and the fence pass of
    `cleanupFormatting`. The simple regular expressions are written out as
    character predicates; the emphasis, strong-emphasis, link, image and
    inline-code searches and the regex rewriting chain are parameters. */
module Markdown {
  import opened Wrappers
  import opened Text

  /** Java's `\s`. */
  predicate IsRegexSpace(c: char)
  {
    c == ' ' || c == '\t' || c == '\n' || c == '\U{B}' || c == '\U{C}' || c == '\r'
  }

  /** Java's `\w`. */
  predicate IsWordChar(c: char)
  {
    ('a' <= c <= 'z') || ('A' <= c <= 'Z') || ('0' <= c <= '9') || c == '_'
  }

  /** `[\w-]`. */
  predicate IsNameChar(c: char)
  {
    IsWordChar(c) || c == '-'
  }

  /** The characters Java's `.` does not match. */
  predicate IsLineTerminator(c: char)
  {
    c == '\n' || c == '\r' || c == '\U{85}' || c == '\U{2028}' || c == '\U{2029}'
  }

  /** `[-:| ]`. */
  predicate IsDividerChar(c: char)
  {
    c == '-' || c == ':' || c == '|' || c == ' '
  }

  /** `s` without the run of `\s` that ends it. */
  function TrimRegexSpaceEnd(s: string): (r: string)
    ensures |r| <= |s| && r == s[..|r|]
    ensures r == [] || !IsRegexSpace(r[|r| - 1])
    ensures forall i | |r| <= i < |s| :: IsRegexSpace(s[i])
  {
    if s == [] || !IsRegexSpace(s[|s| - 1]) then s else TrimRegexSpaceEnd(s[..|s| - 1])
  }

  /** `matches(tableRowPattern)`, `^\|.*\|\s*$`: a bar, characters other
      than line terminators, a bar, then only `\s`. */
  predicate IsTableRowLine(s: string)
  {
    var t := TrimRegexSpaceEnd(s);
    |t| >= 2 && t[0] == '|' && t[|t| - 1] == '|' && forall i | 1 <= i < |t| - 1 :: !IsLineTerminator(t[i])
  }

  /** `matches(tableDividerPattern)`, `^\|[-:| ]+\|\s*$`. */
  predicate IsTableDividerLine(s: string)
  {
    var t := TrimRegexSpaceEnd(s);
    |t| >= 3 && t[0] == '|' && t[|t| - 1] == '|' && forall i | 1 <= i < |t| - 1 :: IsDividerChar(t[i])
  }

  /** `matches(numberListPattern)`, `^\d+\.`: as `matches` asks for the
      whole line, only digits and a final dot. */
  predicate IsNumberLine(s: string)
  {
    |s| >= 2 && s[|s| - 1] == '.' && forall i | 0 <= i < |s| - 1 :: IsDigit(s[i])
  }

  /** `matches(taskListPattern)`, `^- \[[ xX]]\]`: the whole line is
      `- [`, a space or `x` or `X`, and `]]`. */
  predicate IsTaskLine(s: string)
  {
    && |s| == 6 && s[0] == '-' && s[1] == ' ' && s[2] == '['
    && (s[3] == ' ' || s[3] == 'x' || s[3] == 'X')
    && s[4] == ']' && s[5] == ']'
  }

  /** `matches(footnotePattern)`, `^\[\^[\w-]+\]:`. */
  predicate IsFootnoteLine(s: string)
  {
    && |s| >= 5 && s[0] == '[' && s[1] == '^' && s[|s| - 2] == ']' && s[|s| - 1] == ':'
    && forall i | 2 <= i < |s| - 2 :: IsNameChar(s[i])
  }

  /** `matches(definitionListPattern)`, `^[\w-]+:(?:\s|$)`: a name, a colon
      and at most one `\s`. */
  predicate IsDefinitionLine(s: string)
  {
    var k := LeadingCount(s, IsNameChar);
    && 1 <= k < |s| && s[k] == ':'
    && (|s| == k + 1 || (|s| == k + 2 && IsRegexSpace(s[k + 1])))
  }

  const HeaderMarkers: seq<string> := ["#", "##", "###", "####", "#####", "######"]
  const ListMarkers: seq<string> := ["-", "*", "+"]
  const HorizontalRuleMarkers: seq<string> := ["---", "___", "***", "- - -", "_ _ _", "* * *"]
  const SectionStarters: seq<string> := [
    "In ", "The ", "This ", "These ", "Here ", "For ", "When ", "While ", "First", "Second", "Third",
    "Finally", "However", "Moreover", "Nevertheless", "Consequently", "Therefore", "Thus", "Hence",
    "Additionally"]
  const BlockElements: seq<string> := [
    "```", "~~~", "###", "##", "#", "> ", "- ", "* ", "+ ", "1. ", "| ", "---", "___", "***",
    "- [ ]", "- [x]", "[^", ": "]

  predicate IsSentenceEnder(c: char)
  {
    c == '.' || c == '!' || c == '?' || c == ':' || c == ';'
  }

  /** `markers.any { s.startsWith(it) }`. */
  predicate StartsWithAny(s: string, markers: seq<string>)
  {
    exists i | 0 <= i < |markers| :: StartsWith(s, markers[i])
  }

  /** `markers.find { s.startsWith(it) }`: the first marker, in order,
      that `s` starts with. */
  function FirstPrefix(s: string, markers: seq<string>): (r: Option<string>)
    ensures r.Some? ==> r.value in markers && StartsWith(s, r.value)
    ensures r.None? <==> !StartsWithAny(s, markers)
  {
    if markers == [] then None
    else if StartsWith(s, markers[0]) then Some(markers[0])
    else
      var r := FirstPrefix(s, markers[1..]);
      assert forall i | 1 <= i < |markers| :: markers[i] == markers[1..][i - 1];
      r
  }

  /** A fence line: after leading whitespace it starts with three
      backticks or three tildes. */
  predicate IsFenceLine(line: string)
  {
    StartsWith(TrimStart(line), "```") || StartsWith(TrimStart(line), "~~~")
  }

  /** Which of `lines` satisfy `isFence`. */
  function Flags(lines: seq<string>, isFence: string -> bool): (flags: seq<bool>)
    ensures |flags| == |lines|
    ensures forall k | 0 <= k < |lines| :: flags[k] == isFence(lines[k])
  {
    seq(|lines|, k requires 0 <= k < |lines| => isFence(lines[k]))
  }

  /** The fence state after lines with these flags, toggled at every fence
      from outside a code block. */
  function Toggled(flags: seq<bool>): bool
  {
    if flags == [] then false else Toggled(flags[..|flags| - 1]) != flags[|flags| - 1]
  }

  /** The fence state before each of the lines these flags describe, and
      after the last. */
  function States(flags: seq<bool>): (r: seq<bool>)
    ensures |r| == |flags| + 1 && r[0] == false
    ensures forall k | 0 <= k < |flags| :: r[k + 1] == (r[k] != flags[k])
    decreases |flags|
  {
    if flags == [] then [false]
    else
      var init := flags[..|flags| - 1];
      States(init) + [States(init)[|init|] != flags[|flags| - 1]]
  }

  /** Each state is the fence state after the flags before it. */
  lemma {:induction false} StatesToggled(flags: seq<bool>)
    ensures forall k | 0 <= k <= |flags| :: States(flags)[k] == Toggled(flags[..k])
    decreases |flags|
  {
    if flags != [] {
      var init := flags[..|flags| - 1];
      StatesToggled(init);
      forall k | 0 <= k <= |flags|
        ensures States(flags)[k] == Toggled(flags[..k])
      {
        if k < |flags| {
          assert init[..k] == flags[..k];
          assert States(flags)[k] == States(init)[k];
        } else {
          assert flags[..k] == flags && flags[..k][..k - 1] == init;
        }
      }
    }
  }

  /** Some flag is set. */
  predicate AnySet(flags: seq<bool>)
  {
    exists k | 0 <= k < |flags| :: flags[k]
  }

  /** The number of set flags. */
  function SetCount(flags: seq<bool>): (n: nat)
    ensures n <= |flags|
  {
    if flags == [] then 0 else SetCount(flags[..|flags| - 1]) + (if flags[|flags| - 1] then 1 else 0)
  }

  predicate Odd(n: nat)
  {
    n % 2 == 1
  }

  /** The toggling ends inside a code block exactly when an odd number of
      lines are fences; a fence has been seen exactly when there is one. */
  lemma {:induction false} ToggledIsOddCount(flags: seq<bool>)
    ensures Toggled(flags) <==> Odd(SetCount(flags))
    ensures AnySet(flags) <==> SetCount(flags) > 0
    decreases |flags|
  {
    if flags != [] {
      var init := flags[..|flags| - 1];
      ToggledIsOddCount(init);
      AnySetSnoc(init, flags[|flags| - 1]);
      assert flags == init + [flags[|flags| - 1]];
    }
  }

  /** A flag appended to a sequence. */
  lemma AnySetSnoc(flags: seq<bool>, b: bool)
    ensures AnySet(flags + [b]) <==> AnySet(flags) || b
  {
    if AnySet(flags) {
      var k :| 0 <= k < |flags| && flags[k];
      assert (flags + [b])[k];
    }
    if b {
      assert (flags + [b])[|flags|];
    }
  }

  /** The language `analyzeText` takes from the current line when a fence
      opens. */
  function Language(current: string): Option<string>
  {
    if StartsWith(current, "```") && |current| > 3 then Some(Trim(current[3..]))
    else if StartsWith(current, "~~~") && |current| > 3 then Some(Trim(current[3..]))
    else None
  }

  /** The regular-expression searches that are not written out. */
  datatype InlinePatterns = InlinePatterns(
    inlineCode: string -> bool, emphasis: string -> bool, strongEmphasis: string -> bool,
    links: string -> bool, images: string -> bool)

  /** `FormatContext`. */
  datatype FormatContext = FormatContext(
    lastLineEndsWithPunctuation: bool,
    lastLineStartsWithMarkdown: bool,
    nextLineStartsWithMarkdown: bool,
    isCodeBlock: bool,
    isListItem: bool,
    isHeader: bool,
    isSectionBreak: bool,
    isTableRow: bool,
    isBlockquote: bool,
    isTaskListItem: bool,
    isHorizontalRule: bool,
    isFencedCodeBlock: bool,
    isFootnote: bool,
    isDefinitionList: bool,
    depth: nat,
    listItemLevel: nat,
    blockquoteLevel: nat,
    codeBlockLanguage: Option<string>,
    tableColumnCount: int,
    isTableHeader: bool,
    isTableDivider: bool,
    hasInlineCode: bool,
    hasEmphasis: bool,
    hasStrongEmphasis: bool,
    hasLinks: bool,
    hasImages: bool)

  predicate IsQuoteChar(c: char)
  {
    c == '>'
  }

  /** A list item line: a list marker and a space, or a numbered line. */
  predicate IsListLine(trimmed: string)
  {
    StartsWithAny(trimmed, ["- ", "* ", "+ "]) || IsNumberLine(trimmed)
  }

  /** The classification `analyzeText` returns, given its lines, the
      current line (the last one without trailing whitespace), the next
      line (the same last line without leading whitespace), whether the
      fence toggling ended inside a block and the language it recorded. */
  function Classify(lines: seq<string>, current: string, next: string, inCodeBlock: bool,
                    language: Option<string>, patterns: InlinePatterns): FormatContext
    requires |lines| >= 1
  {
    var trimmed := TrimStart(current);
    var isTableRow := IsTableRowLine(current);
    var header := FirstPrefix(trimmed, HeaderMarkers);
    FormatContext(
      lastLineEndsWithPunctuation := !inCodeBlock && current != [] && IsSentenceEnder(current[|current| - 1]),
      lastLineStartsWithMarkdown := !inCodeBlock && StartsWithAny(trimmed, BlockElements),
      nextLineStartsWithMarkdown := !inCodeBlock && StartsWithAny(next, BlockElements),
      isCodeBlock := inCodeBlock || IsFenceLine(current),
      isListItem := !inCodeBlock && IsListLine(trimmed),
      isHeader := !inCodeBlock && StartsWithAny(trimmed, HeaderMarkers),
      isSectionBreak := !inCodeBlock && StartsWithAny(next, SectionStarters),
      isTableRow := !inCodeBlock && isTableRow,
      isBlockquote := !inCodeBlock && StartsWith(trimmed, ">"),
      isTaskListItem := !inCodeBlock && IsTaskLine(trimmed),
      isHorizontalRule := !inCodeBlock && Trim(current) in HorizontalRuleMarkers,
      isFencedCodeBlock := IsFenceLine(current),
      isFootnote := !inCodeBlock && IsFootnoteLine(current),
      isDefinitionList := !inCodeBlock && IsDefinitionLine(current),
      depth := if !inCodeBlock && header.Some? then |header.value| else 0,
      listItemLevel := if !inCodeBlock then LeadingCount(current, IsWhitespace) / 2 else 0,
      blockquoteLevel := if !inCodeBlock then LeadingCount(current, IsQuoteChar) else 0,
      codeBlockLanguage := language,
      tableColumnCount := if isTableRow then CountChar(current, '|') - 1 else 0,
      isTableHeader := isTableRow && |lines| >= 2 && IsTableDividerLine(lines[|lines| - 2]),
      isTableDivider := IsTableDividerLine(current),
      hasInlineCode := !inCodeBlock && patterns.inlineCode(current),
      hasEmphasis := !inCodeBlock && patterns.emphasis(current),
      hasStrongEmphasis := !inCodeBlock && patterns.strongEmphasis(current),
      hasLinks := !inCodeBlock && patterns.links(current),
      hasImages := !inCodeBlock && patterns.images(current))
  }

  /** The last of the lines, without trailing whitespace: the line
      `analyzeText` classifies. */
  function CurrentLine(lines: seq<string>): string
    requires |lines| >= 1
  {
    TrimEnd(lines[|lines| - 1])
  }

  /** The fences among the lines leave a code block open. */
  predicate InCodeBlock(lines: seq<string>)
  {
    Toggled(Flags(lines, IsFenceLine))
  }

  /** What `analyzeText` computes from the lines of its text: the fence
      state is the toggling over all fence lines, and the language is the
      one of the current line once any fence was seen. */
  function AnalysisOfLines(lines: seq<string>, patterns: InlinePatterns): FormatContext
    requires |lines| >= 1
  {
    var last := lines[|lines| - 1];
    var current := TrimEnd(last);
    var flags := Flags(lines, IsFenceLine);
    var language := if AnySet(flags) then Language(current) else None;
    Classify(lines, current, TrimStart(last), Toggled(flags), language, patterns)
  }

  /** What `analyzeText` computes. */
  function Analysis(text: string, patterns: InlinePatterns): FormatContext
  {
    AnalysisOfLines(Lines(text), patterns)
  }

  /** The loop of `analyzeText` over the lines: the fence state is toggled
      at every fence line, and whenever a block opens the language is read
      from the current line. */
  method ToggleFences(lines: seq<string>, isFence: string -> bool, currentLine: string)
    returns (inCodeBlock: bool, codeBlockLanguage: Option<string>)
    ensures inCodeBlock == Toggled(Flags(lines, isFence))
    ensures codeBlockLanguage == if AnySet(Flags(lines, isFence)) then Language(currentLine) else None
  {
    codeBlockLanguage := None;
    inCodeBlock := false;
    ghost var flags := Flags(lines, isFence);
    for i := 0 to |lines|
      invariant inCodeBlock == Toggled(flags[..i])
      invariant codeBlockLanguage == if AnySet(flags[..i]) then Language(currentLine) else None
      invariant !AnySet(flags[..i]) ==> !inCodeBlock
    {
      assert flags[..i + 1] == flags[..i] + [flags[i]];
      AnySetSnoc(flags[..i], flags[i]);
      if isFence(lines[i]) {
        inCodeBlock := !inCodeBlock;
        if inCodeBlock {
          codeBlockLanguage := Language(currentLine);
        }
      }
    }
    assert flags[..|lines|] == flags;
  }

  /** `analyzeText`: the fence state ends inside a code block exactly
      when the toggling over the fence lines does, and the language is the
      one of the last line as soon as any fence opened. */
  method AnalyzeText(text: string, patterns: InlinePatterns) returns (context: FormatContext)
    ensures context == Analysis(text, patterns)
  {
    var lines := Lines(text);
    context := AnalyzeLines(lines, patterns);
  }

  /** The body of `analyzeText` once the text is split into lines. */
  method AnalyzeLines(lines: seq<string>, patterns: InlinePatterns) returns (context: FormatContext)
    requires |lines| >= 1
    ensures context == AnalysisOfLines(lines, patterns)
  {
    var currentLine := TrimEnd(lines[|lines| - 1]);
    var nextLine := TrimStart(lines[|lines| - 1]);
    var inCodeBlock, codeBlockLanguage := ToggleFences(lines, IsFenceLine, currentLine);
    context := Classify(lines, currentLine, nextLine, inCodeBlock, codeBlockLanguage, patterns);
  }

  /** Every header marker starts with `#`. */
  lemma HeaderMarkersHash()
    ensures forall i | 0 <= i < |HeaderMarkers| :: StartsWith(HeaderMarkers[i], "#")
  {
    forall i | 0 <= i < |HeaderMarkers|
      ensures StartsWith(HeaderMarkers[i], "#")
    {
      assert HeaderMarkers[i][..1] == "#";
    }
  }

  /** `"#"` is the first header marker tried, so a header is always found
      at depth 1: `depth` is 1 for a line starting with `#` outside a code
      block and 0 otherwise. */
  lemma HeaderDepthIsOne(lines: seq<string>, patterns: InlinePatterns)
    requires |lines| >= 1
    ensures var context := AnalysisOfLines(lines, patterns);
      var trimmed := TrimStart(CurrentLine(lines));
      && (context.depth == 1 <==> !InCodeBlock(lines) && StartsWith(trimmed, "#"))
      && (context.depth == 0 <==> !(!InCodeBlock(lines) && StartsWith(trimmed, "#")))
      && (context.isHeader <==> context.depth == 1)
  {
    var trimmed := TrimStart(CurrentLine(lines));
    HeaderMarkersHash();
    if StartsWith(trimmed, "#") {
      assert FirstPrefix(trimmed, HeaderMarkers) == Some("#");
    } else {
      assert FirstPrefix(trimmed, HeaderMarkers) == None;
    }
  }

  /** Inside an open code block nothing of the last line is classified:
      no list item, header, blockquote, table row, inline markup or
      punctuation, and the depth and both levels are 0. The table header
      and divider flags and the column count are not guarded. */
  lemma CodeBlockGuards(lines: seq<string>, patterns: InlinePatterns)
    requires |lines| >= 1 && InCodeBlock(lines)
    ensures var c := AnalysisOfLines(lines, patterns);
      && c.isCodeBlock
      && !c.isListItem && !c.isHeader && !c.isBlockquote && !c.isTableRow && !c.isTaskListItem
      && !c.isHorizontalRule && !c.isFootnote && !c.isDefinitionList && !c.isSectionBreak
      && !c.lastLineEndsWithPunctuation && !c.lastLineStartsWithMarkdown && !c.nextLineStartsWithMarkdown
      && !c.hasInlineCode && !c.hasEmphasis && !c.hasStrongEmphasis && !c.hasLinks && !c.hasImages
      && c.depth == 0 && c.listItemLevel == 0 && c.blockquoteLevel == 0
      && c.isTableDivider == IsTableDividerLine(CurrentLine(lines))
  {
  }

  /** Outside a code block the levels are read off the start of the last
      line: the blockquote level is its run of `>`, the list level half its
      run of whitespace. */
  lemma LineLevels(lines: seq<string>, patterns: InlinePatterns)
    requires |lines| >= 1 && !InCodeBlock(lines)
    ensures var c := AnalysisOfLines(lines, patterns);
      var current := CurrentLine(lines);
      && c.blockquoteLevel <= |current|
      && (forall i | 0 <= i < c.blockquoteLevel :: current[i] == '>')
      && (c.blockquoteLevel == |current| || current[c.blockquoteLevel] != '>')
      && 2 * c.listItemLevel <= |current|
      && (forall i | 0 <= i < 2 * c.listItemLevel :: IsWhitespace(current[i]))
  {
    var c := AnalysisOfLines(lines, patterns);
    var current := CurrentLine(lines);
    var q := LeadingCount(current, IsQuoteChar);
    var w := LeadingCount(current, IsWhitespace);
    assert c.blockquoteLevel == q && c.listItemLevel == w / 2;
    assert forall i | 0 <= i < q :: IsQuoteChar(current[i]);
  }

  /** Occurrences of a character in a concatenation. */
  lemma {:induction false} CountCharAppend(a: string, b: string, c: char)
    ensures CountChar(a + b, c) == CountChar(a, c) + CountChar(b, c)
    decreases |a|
  {
    if a != [] {
      assert (a + b)[0] == a[0] && (a + b)[1..] == a[1..] + b;
      CountCharAppend(a[1..], b, c);
      assert CountChar(a + b, c) == (if a[0] == c then 1 else 0) + CountChar(a[1..] + b, c);
    } else {
      assert a + b == b;
    }
  }

  /** A table row has at least one column: its bars number two or more. */
  lemma TableColumns(lines: seq<string>, patterns: InlinePatterns)
    requires |lines| >= 1
    ensures var c := AnalysisOfLines(lines, patterns);
      var current := CurrentLine(lines);
      && (IsTableRowLine(current) ==> c.tableColumnCount >= 1 && c.tableColumnCount == CountChar(current, '|') - 1)
      && (!IsTableRowLine(current) ==> c.tableColumnCount == 0)
  {
    var current := CurrentLine(lines);
    if IsTableRowLine(current) {
      var t := TrimRegexSpaceEnd(current);
      var middle := t[1..|t| - 1];
      assert current == [t[0]] + middle + [t[|t| - 1]] + current[|t|..];
      CountCharAppend([t[0]] + middle + [t[|t| - 1]], current[|t|..], '|');
      CountCharAppend([t[0]] + middle, [t[|t| - 1]], '|');
      CountCharAppend([t[0]], middle, '|');
    }
  }

  /** The "next line" of `analyzeText` is the last line again: for a last
      line without trailing whitespace, whether it starts with markdown is
      decided twice on the same text. */
  lemma NextLineIsLastLine(lines: seq<string>, patterns: InlinePatterns)
    requires |lines| >= 1 && CurrentLine(lines) == lines[|lines| - 1]
    ensures AnalysisOfLines(lines, patterns).nextLineStartsWithMarkdown
         == AnalysisOfLines(lines, patterns).lastLineStartsWithMarkdown
  {
  }

  /** `FormattingDecision`. */
  datatype FormattingDecision = FormattingDecision(
    newlines: nat,
    indent: nat,
    addCodeBlockLanguage: bool,
    preserveSpacing: bool,
    shouldAlignTable: bool,
    shouldAddTableDivider: bool,
    shouldIndentBlockquote: bool,
    shouldIndentList: bool)

  /** Either context is a header or a horizontal rule. */
  predicate HeadingOrRule(c: FormatContext)
  {
    c.isHeader || c.isHorizontalRule
  }

  /** `calculateNewlines`: how many line breaks separate two pieces of
      text. The first matching case decides. */
  function CalculateNewlines(current: FormatContext, next: FormatContext): (r: nat)
    ensures r <= 2
    // Crossing a fence boundary gives a blank line, two fences one break.
    ensures current.isFencedCodeBlock != next.isFencedCodeBlock ==> r == 2
    ensures current.isFencedCodeBlock && next.isFencedCodeBlock ==> r == 1
    // No break at all only between two table rows at a header or divider.
    ensures r == 0 <==>
      && !current.isFencedCodeBlock && !next.isFencedCodeBlock
      && !HeadingOrRule(current) && !HeadingOrRule(next)
      && !next.isDefinitionList && !next.isFootnote && !current.isDefinitionList && !current.isFootnote
      && !(current.isListItem && next.isListItem) && !(current.isBlockquote && next.isBlockquote)
      && current.isTableRow && next.isTableRow && (current.isTableHeader || next.isTableDivider)
    // Outside fences, a blank line before or after headers and rules,
    // before definitions and footnotes, and before a section start after
    // punctuation.
    ensures !current.isFencedCodeBlock && !next.isFencedCodeBlock ==>
      (r == 2 <==>
        || HeadingOrRule(current) || HeadingOrRule(next) || next.isDefinitionList || next.isFootnote
        || (&& !current.isDefinitionList && !current.isFootnote
            && !(current.isListItem && next.isListItem) && !(current.isBlockquote && next.isBlockquote)
            && !(current.isTableRow && next.isTableRow)
            && current.lastLineEndsWithPunctuation && next.isSectionBreak))
  {
    if current.isFencedCodeBlock || next.isFencedCodeBlock then
      if !current.isFencedCodeBlock && next.isFencedCodeBlock then 2
      else if current.isFencedCodeBlock && !next.isFencedCodeBlock then 2
      else 1
    else if next.isHeader || next.isHorizontalRule then 2
    else if current.isHeader || current.isHorizontalRule then 2
    else if next.isDefinitionList || next.isFootnote then 2
    else if current.isDefinitionList || current.isFootnote then 1
    else if current.isListItem && next.isListItem then
      if current.listItemLevel != next.listItemLevel then 1
      else if current.isTaskListItem || next.isTaskListItem then 1
      else 1
    else if current.isBlockquote && next.isBlockquote then
      if current.blockquoteLevel != next.blockquoteLevel then 1 else 1
    else if current.isTableRow && next.isTableRow then
      if current.isTableHeader then 0
      else if next.isTableDivider then 0
      else 1
    else if current.lastLineEndsWithPunctuation && next.isSectionBreak then 2
    else if current.lastLineEndsWithPunctuation && next.nextLineStartsWithMarkdown then 1
    else 1
  }

  /** `calculateIndent`: the indentation of the next piece, read from it
      alone; the contract determines it from `next` without `current`. */
  function CalculateIndent(current: FormatContext, next: FormatContext): (r: nat)
    ensures r % 2 == 0
    ensures next.isListItem ==> r == 2 * next.listItemLevel
    ensures !next.isListItem && next.isBlockquote ==> r == 2 * next.blockquoteLevel
    ensures !next.isListItem && !next.isBlockquote ==>
      r == if next.isDefinitionList || next.isFootnote then 4 else 0
  {
    if next.isListItem then 2 * next.listItemLevel
    else if next.isBlockquote then 2 * next.blockquoteLevel
    else if next.isDefinitionList then 4
    else if next.isFootnote then 4
    else if next.isFencedCodeBlock then 0
    else 0
  }

  predicate ShouldAddCodeBlockLanguage(current: FormatContext, next: FormatContext)
  {
    !current.isFencedCodeBlock && next.isFencedCodeBlock && next.codeBlockLanguage.None?
  }

  predicate ShouldPreserveSpacing(current: FormatContext, next: FormatContext)
  {
    || current.isFencedCodeBlock || next.isFencedCodeBlock || current.isTableRow || next.isTableRow
    || current.hasInlineCode || next.hasInlineCode
  }

  predicate ShouldAlignTable(current: FormatContext, next: FormatContext)
  {
    (current.isTableRow && next.isTableRow) || (current.isTableHeader && next.isTableDivider)
  }

  predicate ShouldAddTableDivider(current: FormatContext, next: FormatContext)
  {
    current.isTableHeader && !next.isTableDivider
  }

  predicate ShouldIndentBlockquote(current: FormatContext, next: FormatContext)
  {
    next.isBlockquote && next.blockquoteLevel > current.blockquoteLevel
  }

  predicate ShouldIndentList(current: FormatContext, next: FormatContext)
  {
    next.isListItem && next.listItemLevel > current.listItemLevel
  }

  /** The decision drawn from two classifications. */
  function Decide(current: FormatContext, next: FormatContext): FormattingDecision
  {
    FormattingDecision(
      newlines := CalculateNewlines(current, next),
      indent := CalculateIndent(current, next),
      addCodeBlockLanguage := ShouldAddCodeBlockLanguage(current, next),
      preserveSpacing := ShouldPreserveSpacing(current, next),
      shouldAlignTable := ShouldAlignTable(current, next),
      shouldAddTableDivider := ShouldAddTableDivider(current, next),
      shouldIndentBlockquote := ShouldIndentBlockquote(current, next),
      shouldIndentList := ShouldIndentList(current, next))
  }

  /** `determineFormatting`: both texts are analysed and the decision is
      drawn from the two classifications. */
  method DetermineFormatting(current: string, next: string, patterns: InlinePatterns)
    returns (decision: FormattingDecision)
    ensures decision == Decide(Analysis(current, patterns), Analysis(next, patterns))
  {
    var currentContext := AnalyzeText(current, patterns);
    var nextContext := AnalyzeText(next, patterns);
    decision := Decide(currentContext, nextContext);
  }

  /** The fields of one decision agree: a missing language is only asked
      for when a fence opens after a blank line with spacing kept, and a
      deeper list or blockquote is indented by its level. */
  lemma DecisionCoherent(current: FormatContext, next: FormatContext)
    ensures var d := Decide(current, next);
      && (d.addCodeBlockLanguage ==> d.newlines == 2 && d.preserveSpacing && d.indent == CalculateIndent(current, next))
      && (d.shouldIndentList ==> d.indent == 2 * next.listItemLevel && d.indent > 0)
      && (d.shouldIndentBlockquote && !next.isListItem ==> d.indent == 2 * next.blockquoteLevel && d.indent > 0)
      && (d.newlines == 0 ==> d.shouldAlignTable && d.preserveSpacing)
  {
  }

  /** Two lines inside an open code block, neither of them a fence, are
      separated by a single line break with no indentation. */
  lemma CodeLinesDecision(current: seq<string>, next: seq<string>, patterns: InlinePatterns)
    requires |current| >= 1 && |next| >= 1 && InCodeBlock(current) && InCodeBlock(next)
    requires !IsFenceLine(CurrentLine(current)) && !IsFenceLine(CurrentLine(next))
    ensures var d := Decide(AnalysisOfLines(current, patterns), AnalysisOfLines(next, patterns));
      d.newlines == 1 && d.indent == 0 && !d.shouldIndentList && !d.shouldIndentBlockquote
      && !d.addCodeBlockLanguage && !d.preserveSpacing
  {
    CodeBlockGuards(current, patterns);
    CodeBlockGuards(next, patterns);
  }

  /** The output of `cleanupFormatting` for a fence line: a fence at
      column 0 keeps its marker followed by its trimmed info string, an
      indented fence is kept as it is. */
  function FenceOutput(line: string): (r: string)
    requires IsFenceLine(line)
  {
    if StartsWith(line, "```") then "```" + Trim(line[3..])
    else if StartsWith(line, "~~~") then "~~~" + Trim(line[3..])
    else line
  }

  /** `trim()` leaves a trimmed string alone. */
  lemma TrimTrimmed(s: string)
    ensures Trim(Trim(s)) == Trim(s)
  {
    var t := Trim(s);
    var u := TrimStart(s);
    assert t == [] || (!IsWhitespace(t[0]) && !IsWhitespace(t[|t| - 1])) by {
      if t != [] {
        assert t[0] == u[0];
      }
    }
    assert TrimStart(t) == t;
    assert TrimEnd(t) == t;
  }

  /** A marker followed by a trimmed info string is a fence line that
      starts with its marker. */
  lemma MarkedFence(marker: string, info: string)
    requires marker == "```" || marker == "~~~"
    ensures IsFenceLine(marker + info)
    ensures StartsWith(marker + info, marker) && (marker + info)[3..] == info
  {
    var r := marker + info;
    assert r[0] == marker[0] && !IsWhitespace(marker[0]);
    TrimStartUnchanged(r);
    assert r[..3] == marker;
    assert r[3..] == info;
  }

  /** The fence output is still a fence line, and cleaning it again
      changes nothing. */
  lemma FenceOutputStable(line: string)
    requires IsFenceLine(line)
    ensures IsFenceLine(FenceOutput(line))
    ensures FenceOutput(FenceOutput(line)) == FenceOutput(line)
  {
    if StartsWith(line, "```") || StartsWith(line, "~~~") {
      var marker := line[..3];
      var info := Trim(line[3..]);
      assert FenceOutput(line) == marker + info;
      MarkedFence(marker, info);
      TrimTrimmed(line[3..]);
      assert StartsWith(marker + info, "```") <==> marker == "```";
    }
  }

  /** The line `cleanupFormatting` emits for `line`, given whether the
      lines before it left a code block open: a fence line is normalised,
      a line inside a block kept, any other line rewritten. */
  function CleanLine(line: string, inside: bool, isFence: string -> bool, fenceOutput: string -> string,
                     rewrite: string -> string): string
  {
    if isFence(line) then fenceOutput(line)
    else if inside then line
    else rewrite(line)
  }

  /** `FenceOutput` on fence lines. */
  function NormalisedFence(line: string): string
  {
    if IsFenceLine(line) then FenceOutput(line) else line
  }

  /** The lines `cleanupFormatting` emits. */
  function CleanedLines(lines: seq<string>, rewrite: string -> string): (out: seq<string>)
    ensures |out| == |lines|
  {
    var flags := Flags(lines, IsFenceLine);
    seq(|lines|, k requires 0 <= k < |lines| =>
      CleanLine(lines[k], Toggled(flags[..k]), IsFenceLine, NormalisedFence, rewrite))
  }

  /** The loop of `cleanupFormatting` over the lines: each line is emitted
      after the fence state before it is read, and a fence line toggles
      the state. */
  method CleanLines(lines: seq<string>, isFence: string -> bool, fenceOutput: string -> string,
                    rewrite: string -> string) returns (out: seq<string>)
    ensures |out| == |lines|
    ensures forall k | 0 <= k < |lines| ::
      out[k] == CleanLine(lines[k], Toggled(Flags(lines, isFence)[..k]), isFence, fenceOutput, rewrite)
  {
    ghost var flags := Flags(lines, isFence);
    ghost var states := States(flags);
    StatesToggled(flags);
    var inCodeBlock := false;
    out := [];
    for i := 0 to |lines|
      invariant |out| == i
      invariant inCodeBlock == states[i]
      invariant forall k | 0 <= k < i :: out[k] == CleanLine(lines[k], states[k], isFence, fenceOutput, rewrite)
    {
      var line := lines[i];
      var emitted := CleanLine(line, inCodeBlock, isFence, fenceOutput, rewrite);
      if isFence(line) {
        inCodeBlock := !inCodeBlock;
      }
      out := out + [emitted];
    }
  }

  /** `cleanupFormatting`: the lines are cleaned one by one, joined with
      line feeds, and trailing whitespace is dropped. The chain of regular
      expression replacements applied outside code blocks is `rewrite`. */
  method CleanupFormatting(text: string, rewrite: string -> string) returns (r: string)
    ensures r == TrimEnd(Join(CleanedLines(Lines(text), rewrite), "\n"))
    ensures r == [] || !IsWhitespace(r[|r| - 1])
  {
    var lines := Lines(text);
    var out := CleanLines(lines, IsFenceLine, NormalisedFence, rewrite);
    assert out == CleanedLines(lines, rewrite);
    r := TrimEnd(Join(out, "\n"));
  }

  /** What cleaning keeps: every fence line stays a fence line, and every
      line inside an open code block is emitted unchanged. */
  lemma CleanedLinesKeepBlocks(lines: seq<string>, rewrite: string -> string)
    ensures var out := CleanedLines(lines, rewrite);
      var flags := Flags(lines, IsFenceLine);
      && (forall k | 0 <= k < |lines| && IsFenceLine(lines[k]) :: IsFenceLine(out[k]))
      && (forall k | 0 <= k < |lines| && !IsFenceLine(lines[k]) && Toggled(flags[..k]) :: out[k] == lines[k])
      && (forall k | 0 <= k < |lines| && !IsFenceLine(lines[k]) && !Toggled(flags[..k]) :: out[k] == rewrite(lines[k]))
  {
    var out := CleanedLines(lines, rewrite);
    forall k | 0 <= k < |lines| && IsFenceLine(lines[k])
      ensures IsFenceLine(out[k])
    {
      FenceOutputStable(lines[k]);
      assert out[k] == FenceOutput(lines[k]);
    }
  }
}
