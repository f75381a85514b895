/** The line scanner of `MarkdownRenderer`: the content is split into lines
    and a cursor walks them, turning each line, or a run of lines, into one
    block. Rendering the blocks (JSX, syntax highlighting, the bold and
    italic replacements) is not part of this model. */
module Markdown {

  import opened Text
  import Lists

  /** A piece of an inline-code line: text outside backticks, or code. */
  datatype Span = Plain(text: string) | CodeSpan(text: string)

  datatype Block =
    | Heading(level: nat, text: string)
    | CodeBlock(language: string, body: seq<string>, lineNumbers: bool)
    | InlineCode(spans: seq<Span>)
    | BulletList(items: seq<string>)
    | NumberedList(items: seq<string>)
    | Quote(lines: seq<string>)
    | Rule
    | Paragraph(text: string)
    | Break

  /** The branch a line takes, in the order the branches are tried. */
  datatype Kind = H3 | H2 | H1 | Fence | Inline | Bullet | Numbered | QuoteLine | HRule | Prose | Blank

  /** `s.slice(n)` for `n >= 0`. */
  function Drop(s: string, n: nat): string
  {
    if n <= |s| then s[n..] else ""
  }

  predicate IsDigit(c: char)
  {
    '0' <= c <= '9'
  }

  /** The number of leading ASCII digits. */
  function DigitRun(s: string): (n: nat)
    ensures n <= |s|
    ensures forall k :: 0 <= k < n ==> IsDigit(s[k])
    ensures n < |s| ==> !IsDigit(s[n])
  {
    if s != [] && IsDigit(s[0]) then 1 + DigitRun(s[1..]) else 0
  }

  /** The length of the match of `/^\d+\.\s/`, or 0 when there is none. */
  function NumberMarker(line: string): (n: nat)
    ensures n <= |line|
    ensures n > 0 ==>
      (n >= 3 && line[n - 2] == '.' && IsSpace(line[n - 1]) && forall k :: 0 <= k < n - 2 ==> IsDigit(line[k]))
  {
    var d := DigitRun(line);
    if 1 <= d && d + 1 < |line| && line[d] == '.' && IsSpace(line[d + 1]) then d + 2 else 0
  }

  /** Conversely, a run of one or more digits followed by a dot and a
      whitespace character is matched, up to and including that whitespace. */
  lemma NumberMarkerMatch(line: string, d: nat)
    requires 1 <= d && d + 1 < |line|
    requires forall k :: 0 <= k < d ==> IsDigit(line[k])
    requires line[d] == '.' && IsSpace(line[d + 1])
    ensures NumberMarker(line) == d + 2
  {
  }

  /** `line.startsWith(p)` for a marker `p` of two characters. */
  predicate Starts2(line: string, a: char, b: char)
  {
    2 <= |line| && line[0] == a && line[1] == b
  }

  /** `line.startsWith(p)` for a marker `p` of three characters. */
  predicate Starts3(line: string, a: char, b: char, c: char)
  {
    3 <= |line| && line[0] == a && line[1] == b && line[2] == c
  }

  predicate IsH3Line(line: string)
  {
    4 <= |line| && Starts3(line, '#', '#', '#') && line[3] == ' '
  }

  predicate IsH2Line(line: string)
  {
    Starts3(line, '#', '#', ' ')
  }

  predicate IsH1Line(line: string)
  {
    Starts2(line, '#', ' ')
  }

  predicate IsBulletLine(line: string)
  {
    Starts2(line, '-', ' ') || Starts2(line, '*', ' ')
  }

  predicate IsRuleLine(line: string)
  {
    Starts3(line, '-', '-', '-') || Starts3(line, '*', '*', '*')
  }

  predicate IsNumberedLine(line: string)
  {
    NumberMarker(line) > 0
  }

  predicate IsQuoteLine(line: string)
  {
    Starts2(line, '>', ' ')
  }

  /** `line.startsWith("```")`. */
  predicate IsFenceLine(line: string)
  {
    Starts3(line, '`', '`', '`')
  }

  /** The first test a line passes, in the renderer's order. */
  function KindOf(line: string): Kind
  {
    if IsH3Line(line) then H3
    else if IsH2Line(line) then H2
    else if IsH1Line(line) then H1
    else if IsFenceLine(line) then Fence
    else if '`' in line then Inline
    else if IsBulletLine(line) then Bullet
    else if IsNumberedLine(line) then Numbered
    else if IsQuoteLine(line) then QuoteLine
    else if IsRuleLine(line) then HRule
    else if !IsBlank(line) then Prose
    else Blank
  }

  /** A whitespace-only line takes the last branch and no other. */
  lemma BlankLineKind(line: string)
    ensures KindOf(line) == Blank <==> IsBlank(line)
  {
    if IsBlank(line) && line != [] {
      assert IsSpace(line[0]);
      assert !('`' in line) by {
        forall k | 0 <= k < |line| ensures line[k] != '`' {
          assert IsSpace(line[k]);
        }
      }
    }
  }

  predicate IsGroupKind(kind: Kind)
  {
    kind == Bullet || kind == Numbered || kind == QuoteLine
  }

  /** A line a list or quote group absorbs: a marker line or a blank line. */
  predicate InGroup(kind: Kind, line: string)
    requires IsGroupKind(kind)
  {
    IsBlank(line)
    || (kind == Bullet && IsBulletLine(line))
    || (kind == Numbered && IsNumberedLine(line))
    || (kind == QuoteLine && IsQuoteLine(line))
  }

  /** An item of a group: the line without its marker. */
  function StripMarker(kind: Kind, line: string): string
    requires IsGroupKind(kind)
  {
    if kind == Numbered then Drop(line, NumberMarker(line)) else Drop(line, 2)
  }

  /** An item is what follows the marker: a suffix of its line. */
  lemma StripMarkerSuffix(kind: Kind, line: string)
    requires IsGroupKind(kind)
    ensures var r := StripMarker(kind, line);
      |r| <= |line| && r == line[|line| - |r|..]
  {
  }

  /** What one group line contributes: nothing for a blank line (one whose
      trim is empty), otherwise the line without its marker. */
  function LineItem(kind: Kind, line: string): seq<string>
    requires IsGroupKind(kind)
  {
    if IsBlank(line) then [] else [StripMarker(kind, line)]
  }

  /** The items of the group lines `lines[j..e]`: blank lines dropped,
      markers stripped. */
  function GroupItems(kind: Kind, lines: seq<string>, j: nat, e: nat): (items: seq<string>)
    requires IsGroupKind(kind) && j <= e <= |lines|
    ensures |items| <= e - j
    decreases e
  {
    if e == j then []
    else
      GroupItems(kind, lines, j, e - 1) + LineItem(kind, lines[e - 1])
  }

  /** Where a group starting at `j` ends: the first line from `j` on that the
      group does not absorb, or the end. */
  function GroupEnd(lines: seq<string>, kind: Kind, j: nat): (e: nat)
    requires IsGroupKind(kind) && j <= |lines|
    ensures j <= e <= |lines|
    ensures e < |lines| ==> !InGroup(kind, lines[e])
    decreases |lines| - j
  {
    if j < |lines| && InGroup(kind, lines[j]) then GroupEnd(lines, kind, j + 1) else j
  }

  /** Every line a group spans is one it absorbs. */
  lemma {:induction false} GroupEndRun(lines: seq<string>, kind: Kind, j: nat)
    requires IsGroupKind(kind) && j <= |lines|
    ensures forall k :: j <= k < GroupEnd(lines, kind, j) ==> InGroup(kind, lines[k])
    decreases |lines| - j
  {
    if j < |lines| && InGroup(kind, lines[j]) {
      GroupEndRun(lines, kind, j + 1);
    }
  }

  /** A group is as long as the run of lines it absorbs. */
  lemma {:induction false} GroupEndAt(lines: seq<string>, kind: Kind, j: nat, e: nat)
    requires IsGroupKind(kind) && j <= e <= |lines|
    requires forall k :: j <= k < e ==> InGroup(kind, lines[k])
    requires e < |lines| ==> !InGroup(kind, lines[e])
    ensures GroupEnd(lines, kind, j) == e
    decreases e - j
  {
    if j < e {
      GroupEndAt(lines, kind, j + 1, e);
    }
  }

  /** The first fence line from `j` on, or the end. */
  function FenceEnd(lines: seq<string>, j: nat): (e: nat)
    requires j <= |lines|
    ensures j <= e <= |lines|
    ensures forall k :: j <= k < e ==> !IsFenceLine(lines[k])
    ensures e < |lines| ==> IsFenceLine(lines[e])
    decreases |lines| - j
  {
    if j < |lines| && !IsFenceLine(lines[j]) then FenceEnd(lines, j + 1) else j
  }

  /** A fence body is the run of non-fence lines after the opening fence. */
  lemma {:induction false} FenceEndAt(lines: seq<string>, j: nat, e: nat)
    requires j <= e <= |lines|
    requires forall k :: j <= k < e ==> !IsFenceLine(lines[k])
    requires e < |lines| ==> IsFenceLine(lines[e])
    ensures FenceEnd(lines, j) == e
    decreases e - j
  {
    if j < e {
      FenceEndAt(lines, j + 1, e);
    }
  }

  /** `parts.map((part, index) => index % 2 === 1 ? <code> : part)`. */
  function Spans(parts: seq<string>): (r: seq<Span>)
    ensures SpanTexts(r) == parts
    ensures forall k :: 0 <= k < |r| ==> (r[k].CodeSpan? <==> k % 2 == 1)
  {
    var r := seq(|parts|, k requires 0 <= k < |parts| => if k % 2 == 1 then CodeSpan(parts[k]) else Plain(parts[k]));
    assert forall k :: 0 <= k < |parts| ==> SpanTexts(r)[k] == parts[k];
    r
  }

  function TextOf(span: Span): string
  {
    span.text
  }

  /** The text of each span, in order. */
  function SpanTexts(spans: seq<Span>): seq<string>
  {
    Lists.Map(spans, TextOf)
  }

  function HeadingMarker(level: nat): string
  {
    if level == 3 then "### " else if level == 2 then "## " else "# "
  }

  /** The language shown for a fence: the rest of the fence line trimmed,
      or "text" when that is empty. */
  function FenceLanguage(line: string): (r: string)
    ensures r != [] && !IsSpace(r[0]) && !IsSpace(r[|r| - 1])
  {
    var language := Trim(Drop(line, 3));
    if language == "" then "text" else language
  }

  /** The language is the trimmed rest of the fence line, and "text" when
      that rest is whitespace only. */
  lemma FenceLanguageTrims(line: string)
    ensures IsBlank(Drop(line, 3)) ==> FenceLanguage(line) == "text"
    ensures !IsBlank(Drop(line, 3)) ==>
      exists a, b :: a + FenceLanguage(line) + b == Drop(line, 3) && IsBlank(a) && IsBlank(b)
  {
    TrimRemovesBlank(Drop(line, 3));
  }

  /** The lines `j` to `e`, exclusive, in order. */
  function Lines(lines: seq<string>, j: nat, e: nat): (r: seq<string>)
    requires j <= e <= |lines|
    ensures |r| == e - j
    ensures forall k :: 0 <= k < |r| ==> r[k] == lines[j + k]
    decreases e
  {
    if e == j then [] else Lines(lines, j, e - 1) + [lines[e - 1]]
  }

  /** The code lines after a fence line at `i`: the longest run of lines
      that are not fences, up to the closing fence or the end. */
  function FenceBody(lines: seq<string>, i: nat): (body: seq<string>)
    requires i < |lines|
    ensures i + 1 + |body| <= |lines|
    ensures forall k :: 0 <= k < |body| ==> body[k] == lines[i + 1 + k] && !IsFenceLine(body[k])
    ensures i + 1 + |body| < |lines| ==> IsFenceLine(lines[i + 1 + |body|])
  {
    var e := FenceEnd(lines, i + 1);
    var body := Lines(lines, i + 1, e);
    body
  }

  /** The block a fence line at `i` opens and the cursor after it: the
      closing fence, when there is one, is consumed too. */
  function FenceBlock(lines: seq<string>, i: nat): (r: (Block, nat))
    requires i < |lines|
    ensures i + 2 <= r.1 <= |lines| + 1
  {
    var body := FenceBody(lines, i);
    (CodeBlock(FenceLanguage(lines[i]), body, |body| > 5), i + 2 + |body|)
  }

  /** An inline-code line: `line.split('`')`, with the odd pieces as code. */
  function InlineBlock(line: string): (b: Block)
    ensures b.InlineCode?
  {
    InlineCode(Spans(Split(line, '`')))
  }

  /** The block a list or quote line at `i` opens and the cursor after it. */
  function GroupBlock(lines: seq<string>, kind: Kind, i: nat): (r: (Block, nat))
    requires IsGroupKind(kind) && i < |lines| && InGroup(kind, lines[i])
    ensures i < r.1 <= |lines|
  {
    var e := GroupEnd(lines, kind, i);
    var items := GroupItems(kind, lines, i, e);
    (if kind == Bullet then BulletList(items) else if kind == Numbered then NumberedList(items) else Quote(items), e)
  }

  /** One turn of the outer loop at cursor `i`: the block it pushes and the
      cursor it leaves for the next turn. */
  function Step(lines: seq<string>, i: nat): (r: (Block, nat))
    requires i < |lines|
    ensures i < r.1 <= |lines| + 1
  {
    var line := lines[i];
    match KindOf(line)
    case H3 => (Heading(3, line[4..]), i + 1)
    case H2 => (Heading(2, line[3..]), i + 1)
    case H1 => (Heading(1, line[2..]), i + 1)
    case Fence => FenceBlock(lines, i)
    case Inline => (InlineBlock(line), i + 1)
    case Bullet => GroupBlock(lines, Bullet, i)
    case Numbered => GroupBlock(lines, Numbered, i)
    case QuoteLine => GroupBlock(lines, QuoteLine, i)
    case HRule => (Rule, i + 1)
    case Prose => (Paragraph(line), i + 1)
    case Blank => (Break, i + 1)
  }

  /** A heading's text is its line with the `#` marker and space removed. */
  lemma StepHeading(lines: seq<string>, i: nat)
    requires i < |lines| && KindOf(lines[i]) in {H1, H2, H3}
    ensures var (b, next) := Step(lines, i);
      b.Heading? && next == i + 1 && HeadingMarker(b.level) + b.text == lines[i]
      && (b.level == 3 <==> KindOf(lines[i]) == H3)
      && (b.level == 2 <==> KindOf(lines[i]) == H2)
      && (b.level == 1 <==> KindOf(lines[i]) == H1)
  {
    var line := lines[i];
    if KindOf(line) == H3 {
      assert line == "### " + line[4..];
    } else if KindOf(line) == H2 {
      assert line == "## " + line[3..];
    } else {
      assert line == "# " + line[2..];
    }
  }

  /** A fence line opens a code block of the lines up to the next fence
      line, named by the rest of the fence line and numbered when it has
      more than five lines; the turn ends past the closing fence. */
  lemma StepFence(lines: seq<string>, i: nat)
    requires i < |lines| && KindOf(lines[i]) == Fence
    ensures var body := FenceBody(lines, i);
      Step(lines, i) == (CodeBlock(FenceLanguage(lines[i]), body, |body| > 5), i + 2 + |body|)
  {
  }

  /** An inline-code line is split at its backticks; the pieces at odd
      positions are code, and joined back with backticks they give the line. */
  lemma StepInline(lines: seq<string>, i: nat)
    requires i < |lines| && KindOf(lines[i]) == Inline
    ensures var (b, next) := Step(lines, i);
      && b.InlineCode? && next == i + 1
      && SpanTexts(b.spans) == Split(lines[i], '`')
      && Join("`", SpanTexts(b.spans)) == lines[i]
      && forall k :: 0 <= k < |b.spans| ==> (b.spans[k].CodeSpan? <==> k % 2 == 1)
  {
    JoinSplit(lines[i], '`');
  }

  /** A list or quote takes the longest run of marker and blank lines from
      its first line on, and leaves the cursor on the first line after it. */
  lemma StepGroup(lines: seq<string>, i: nat)
    requires i < |lines| && IsGroupKind(KindOf(lines[i]))
    ensures var (b, next) := Step(lines, i);
      var kind := KindOf(lines[i]);
      && (forall k :: i <= k < next ==> InGroup(kind, lines[k]))
      && (next < |lines| ==> !InGroup(kind, lines[next]))
      && b == (if kind == Bullet then BulletList(GroupItems(kind, lines, i, next))
               else if kind == Numbered then NumberedList(GroupItems(kind, lines, i, next))
               else Quote(GroupItems(kind, lines, i, next)))
  {
    GroupEndRun(lines, KindOf(lines[i]), i);
  }

  /** A break is pushed exactly for a whitespace-only line. */
  lemma StepBreak(lines: seq<string>, i: nat)
    requires i < |lines|
    ensures Step(lines, i).0 == Break <==> IsBlank(lines[i])
  {
    BlankLineKind(lines[i]);
  }

  /** The blocks the loop pushes from cursor `i` to the end. */
  function Parse(lines: seq<string>, i: nat): seq<Block>
    decreases |lines| + 1 - i, 1
  {
    if i >= |lines| then [] else Turn(lines, i)
  }

  /** The blocks from a turn at cursor `i` on: its block, then the blocks
      from the cursor it leaves. */
  function Turn(lines: seq<string>, i: nat): seq<Block>
    requires i < |lines|
    decreases |lines| + 1 - i, 0
  {
    var (block, next) := Step(lines, i);
    [block] + Parse(lines, next)
  }

  /** The cursor at the top of each turn of the outer loop, from `i` on. */
  function Cursors(lines: seq<string>, i: nat): seq<nat>
    decreases |lines| - i
  {
    if i >= |lines| then [] else [i] + Cursors(lines, Step(lines, i).1)
  }

  /** Every turn consumes at least one line and the next turn starts where
      this one stopped: the cursors start at `i`, increase strictly, stay
      inside the content, and block `k` is the one `Step` makes at cursor `k`.
      So the loop ends, with one block per turn and no line read twice. */
  lemma {:induction false} CursorsCover(lines: seq<string>, i: nat)
    requires i < |lines|
    ensures var c := Cursors(lines, i);
      && |c| == |Parse(lines, i)| >= 1
      && c[0] == i
      && (forall k :: 0 <= k < |c| ==> c[k] < |lines| && Parse(lines, i)[k] == Step(lines, c[k]).0)
      && (forall k :: 0 <= k < |c| - 1 ==> c[k] < c[k + 1] == Step(lines, c[k]).1)
      && Step(lines, c[|c| - 1]).1 >= |lines|
    decreases |lines| - i
  {
    var next := Step(lines, i).1;
    ParseStep(lines, i, Step(lines, i).0, next);
    if next < |lines| {
      CursorsCover(lines, next);
      var c := Cursors(lines, i);
      var c' := Cursors(lines, next);
      assert c == [i] + c';
      assert c[1..] == c';
    }
  }

  /** At most one block per line, and at least one for a non-empty content. */
  lemma {:induction false} BlocksBound(lines: seq<string>, i: nat)
    requires i < |lines|
    ensures 1 <= |Parse(lines, i)| <= |lines| - i
    decreases |lines| - i
  {
    var next := Step(lines, i).1;
    ParseStep(lines, i, Step(lines, i).0, next);
    if next < |lines| {
      BlocksBound(lines, next);
    }
  }

  /** The inner loop over a fence body: it stops at the next fence line or
      the end, collecting the lines before it. */
  method ScanFence(lines: seq<string>, start: nat) returns (codeLines: seq<string>, i: nat)
    requires start <= |lines|
    ensures i == FenceEnd(lines, start)
    ensures codeLines == Lines(lines, start, i)
  {
    codeLines, i := [], start;
    while i < |lines| && !IsFenceLine(lines[i])
      invariant start <= i <= |lines|
      invariant codeLines == Lines(lines, start, i)
      invariant forall k :: start <= k < i ==> !IsFenceLine(lines[k])
    {
      codeLines := codeLines + [lines[i]];
      i := i + 1;
    }
    FenceEndAt(lines, start, i);
  }

  /** One more line of a group adds its item, unless it is blank. */
  lemma GroupItemsNext(kind: Kind, lines: seq<string>, j: nat, e: nat)
    requires IsGroupKind(kind) && j <= e < |lines|
    ensures GroupItems(kind, lines, j, e + 1)
         == GroupItems(kind, lines, j, e) + LineItem(kind, lines[e])
  {
  }

  /** A group line does not end the group. */
  lemma GroupEndNext(lines: seq<string>, kind: Kind, j: nat)
    requires IsGroupKind(kind) && j < |lines| && InGroup(kind, lines[j])
    ensures GroupEnd(lines, kind, j + 1) == GroupEnd(lines, kind, j)
  {
  }

  /** The inner loop of a list or quote group: it absorbs marker and blank
      lines, keeping the non-blank ones without their markers. */
  method ScanGroup(lines: seq<string>, kind: Kind, start: nat) returns (items: seq<string>, i: nat)
    requires IsGroupKind(kind) && start <= |lines|
    ensures i == GroupEnd(lines, kind, start)
    ensures items == GroupItems(kind, lines, start, i)
  {
    items, i := [], start;
    while i < |lines| && InGroup(kind, lines[i])
      invariant start <= i <= |lines|
      invariant items == GroupItems(kind, lines, start, i)
      invariant GroupEnd(lines, kind, i) == GroupEnd(lines, kind, start)
    {
      GroupItemsNext(kind, lines, start, i);
      GroupEndNext(lines, kind, i);
      items := items + LineItem(kind, lines[i]);
      i := i + 1;
    }
  }

  /** One turn of the renderer's loop body at cursor `i`, taking the first
      branch whose test the line passes: the block it pushes and the cursor
      it leaves just before the closing `i++` (a group's scan stops on the
      line after it and steps back one). */
  method RenderLine(lines: seq<string>, i: nat) returns (block: Block, last: nat)
    requires i < |lines|
    ensures block == Step(lines, i).0 && last + 1 == Step(lines, i).1
  {
    var line := lines[i];
    last := i;
    match KindOf(line) {
      case H3 =>
        block := Heading(3, line[4..]);
      case H2 =>
        block := Heading(2, line[3..]);
      case H1 =>
        block := Heading(1, line[2..]);
      case Fence =>
        var language := Trim(Drop(line, 3));
        var codeLines;
        codeLines, last := ScanFence(lines, i + 1);
        block := CodeBlock(if language == "" then "text" else language, codeLines, |codeLines| > 5);
      case Inline =>
        block := InlineCode(Spans(Split(line, '`')));
      case Bullet =>
        var items;
        items, last := ScanGroup(lines, Bullet, i);
        last := last - 1;
        block := BulletList(items);
      case Numbered =>
        var items;
        items, last := ScanGroup(lines, Numbered, i);
        last := last - 1;
        block := NumberedList(items);
      case QuoteLine =>
        var items;
        items, last := ScanGroup(lines, QuoteLine, i);
        last := last - 1;
        block := Quote(items);
      case HRule =>
        block := Rule;
      case Prose =>
        block := Paragraph(line);
      case Blank =>
        block := Break;
    }
  }

  /** One turn of the loop: the block `Step` makes at the cursor, then the
      blocks from the cursor it leaves. */
  lemma ParseStep(lines: seq<string>, i: nat, block: Block, next: nat)
    requires i < |lines| && block == Step(lines, i).0 && next == Step(lines, i).1
    ensures Parse(lines, i) == [block] + Parse(lines, next)
  {
  }

  /** The outer `while` loop over the lines: the blocks, in order, that it
      pushes. */
  method RenderLines(lines: seq<string>) returns (blocks: seq<Block>)
    ensures blocks == Parse(lines, 0)
  {
    blocks := [];
    var i := 0;
    while i < |lines|
      invariant i <= |lines| + 1
      invariant Parse(lines, 0) == blocks + Parse(lines, i)
      decreases |lines| + 1 - i
    {
      var block, last := RenderLine(lines, i);
      ParseStep(lines, i, block, last + 1);
      assert blocks + ([block] + Parse(lines, last + 1)) == (blocks + [block]) + Parse(lines, last + 1);
      blocks := blocks + [block];
      i := last + 1;
    }
  }

  /** `MarkdownRenderer` on `content`: the blocks of `content.split('\n')`. */
  method Render(content: string) returns (blocks: seq<Block>)
    ensures blocks == Parse(Split(content, '\n'), 0)
  {
    blocks := RenderLines(Split(content, '\n'));
  }
}
