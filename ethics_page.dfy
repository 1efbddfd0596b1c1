/** The Markdown-to-HTML converter of the ethics page publisher.

    The document is split into lines and read once, top to bottom. A fence
    toggles a code block whose lines are copied as they are; "**Key:** value"
    lines among the first five become a metadata paragraph; list items open,
    nest and close `<ul>`/`<ol>` lists by indentation; headers get an anchor
    id; a run of dashes or stars is a rule; any other non-blank line is a
    paragraph. Inline markup is a chain of five substitutions.

    The emitted lines are kept as `Line` values, so that the list tags the
    converter produces can be told apart from a code line that happens to
    read `<ul>`; `Render` gives each its text. Character classes are ASCII:
    `\s` is `IsSpace`, `\w` is `IsWordChar` and lower-casing is `LowerChar`. */
module EthicsPage {
  import opened Common

  // ---------------------------------------------------------------------
  // convert_inline_markdown

  /** The characters a backslash may escape. */
  predicate Escapable(c: char) {
    c in "*~`$[]<>{}|^&"
  }

  /** `re.sub(r'\\([*~`$\[\]<>{}|^&])', r'\1', s)`: drop the backslash before an escapable character. */
  function Unbackslash(s: string): string
    decreases |s|
  {
    if |s| >= 2 && s[0] == '\\' && Escapable(s[1]) then [s[1]] + Unbackslash(s[2..])
    else if s == [] then []
    else [s[0]] + Unbackslash(s[1..])
  }

  /** Length of the longest prefix of `s` without `c`. */
  function RunNot(s: string, c: char): (n: nat)
    ensures n <= |s|
    ensures forall k :: 0 <= k < n ==> s[k] != c
    ensures n < |s| ==> s[n] == c
  {
    if s == [] || s[0] == c then 0 else 1 + RunNot(s[1..], c)
  }

  /** `\[([^\]]+)\]\(([^\)]+)\)` at the start of `s`: the text, the target and the match length. */
  function LinkAt(s: string): (r: Option<(string, string, nat)>)
    ensures r.Some? ==> 0 < r.value.2 <= |s|
  {
    if s == [] || s[0] != '[' then None
    else
      var n1 := RunNot(s[1..], ']');
      if n1 == 0 || 3 + n1 > |s| || s[2 + n1] != '(' then None
      else
        var n2 := RunNot(s[3 + n1..], ')');
        if n2 == 0 || 3 + n1 + n2 >= |s| then None
        else Some((s[1..1 + n1], s[3 + n1..3 + n1 + n2], 4 + n1 + n2))
  }

  /** `re.sub(r'\[([^\]]+)\]\(([^\)]+)\)', r'<a href="\2">\1</a>', s)` */
  function Links(s: string): string
    decreases |s|
  {
    if s == [] then []
    else match LinkAt(s)
      case Some((text, url, n)) => "<a href=\"" + url + "\">" + text + "</a>" + Links(s[n..])
      case None => [s[0]] + Links(s[1..])
  }

  /** A substitution `open([^c]+)open` → `before\1after`, where the delimiter `open` is made of `c`. */
  function Delimited(s: string, open: string, c: char, before: string, after: string): string
    requires open != [] && open[0] == c
    decreases |s|
  {
    if s == [] then []
    else if open <= s then
      var n := RunNot(s[|open|..], c);
      if n > 0 && OccursAt(s, open, |open| + n) then
        before + s[|open|..|open| + n] + after + Delimited(s[2 * |open| + n..], open, c, before, after)
      else [s[0]] + Delimited(s[1..], open, c, before, after)
    else [s[0]] + Delimited(s[1..], open, c, before, after)
  }

  function Bold(s: string): string { Delimited(s, "**", '*', "<strong>", "</strong>") }
  function Italic(s: string): string { Delimited(s, "*", '*', "<em>", "</em>") }
  function Code(s: string): string { Delimited(s, "`", '`', "<code>", "</code>") }

  /** `convert_inline_markdown`: escapes, links, bold, italic, inline code, in that order. */
  function Inline(s: string): string {
    Code(Italic(Bold(Links(Unbackslash(s)))))
  }

  lemma {:induction false} UnbackslashPlain(s: string)
    requires '\\' !in s
    ensures Unbackslash(s) == s
    decreases |s|
  {
    if s != [] {
      assert '\\' !in s[1..];
      UnbackslashPlain(s[1..]);
    }
  }

  lemma {:induction false} LinksPlain(s: string)
    requires '[' !in s
    ensures Links(s) == s
    decreases |s|
  {
    if s != [] {
      assert '[' !in s[1..];
      LinksPlain(s[1..]);
    }
  }

  lemma {:induction false} DelimitedPlain(s: string, open: string, c: char, before: string, after: string)
    requires open != [] && open[0] == c && c !in s
    ensures Delimited(s, open, c, before, after) == s
    decreases |s|
  {
    if s != [] {
      assert s[0] != c;
      assert c !in s[1..];
      DelimitedPlain(s[1..], open, c, before, after);
    }
  }

  /** Text with no backslash, bracket, star or backquote comes back unchanged. */
  lemma InlinePlain(s: string)
    requires '\\' !in s && '[' !in s && '*' !in s && '`' !in s
    ensures Inline(s) == s
  {
    UnbackslashPlain(s);
    LinksPlain(s);
    DelimitedPlain(s, "**", '*', "<strong>", "</strong>");
    DelimitedPlain(s, "*", '*', "<em>", "</em>");
    DelimitedPlain(s, "`", '`', "<code>", "</code>");
  }

  /** A span fully wrapped in the delimiter becomes the replacement around it. */
  lemma DelimitedWhole(x: string, open: string, c: char, before: string, after: string)
    requires open != [] && open[0] == c && x != [] && c !in x
    ensures Delimited(open + x + open, open, c, before, after) == before + x + after
  {
    var s := open + x + open;
    WrappedParts(x, open, c);
    assert Delimited(s[2 * |open| + |x|..], open, c, before, after) == [];
    assert before + x + after + [] == before + x + after;
  }

  /** The pieces of `open + x + open` that `Delimited` looks at. */
  lemma WrappedParts(x: string, open: string, c: char)
    requires open != [] && open[0] == c && c !in x
    ensures var s := open + x + open;
      && open <= s && RunNot(s[|open|..], c) == |x| && OccursAt(s, open, |open| + |x|)
      && s[|open|..|open| + |x|] == x && s[2 * |open| + |x|..] == []
  {
    var s := open + x + open;
    assert s[..|open|] == open;
    assert s[|open|..] == x + open;
    RunNotUpTo(x, open, c);
    assert s[|open| + |x|..|open| + |x| + |open|] == open;
    assert s[|open|..|open| + |x|] == x;
  }

  lemma RunNotUpTo(x: string, open: string, c: char)
    requires open != [] && open[0] == c && c !in x
    ensures RunNot(x + open, c) == |x|
  {
    var n := RunNot(x + open, c);
    assert (x + open)[|x|] == c;
    forall k | 0 <= k < |x| ensures (x + open)[k] != c {
      assert (x + open)[k] == x[k];
    }
  }

  // ---------------------------------------------------------------------
  // Line patterns

  /** `\s+(.+)$` from position `p` of a line (a line holds no newline, so `.` takes
      every character): at least one space, then a non-empty rest. When the
      spaces run to the end, the greedy run gives back its last character. */
  function TailGroup(line: string, p: nat): (r: Option<string>)
    requires p <= |line|
    ensures r.Some? ==> r.value != []
  {
    var w := SpaceRun(line[p..]);
    if w == 0 then None
    else if p + w < |line| then Some(line[p + w..])
    else if w >= 2 then Some(line[|line| - 1..])
    else None
  }

  /** `^\*\*([^:]+):\*\*\s+(.+)$`: the key and the value of a metadata line. */
  function MetaMatch(line: string): Option<(string, string)> {
    if !("**" <= line) then None
    else
      var n := RunNot(line[2..], ':');
      if n == 0 || !OccursAt(line, ":**", 2 + n) then None
      else match TailGroup(line, 5 + n)
        case None => None
        case Some(v) => Some((line[2..2 + n], v))
  }

  /** `^(\s*)[\-\*]\s+(.+)$`: the text of an unordered item. */
  function BulletMatch(line: string): Option<string> {
    var p := SpaceRun(line);
    if p < |line| && (line[p] == '-' || line[p] == '*') then TailGroup(line, p + 1) else None
  }

  /** `^(\s*)\d+\.\s+(.+)$`: the text of an ordered item. */
  function NumberMatch(line: string): Option<string> {
    var p := SpaceRun(line);
    var d := DigitRun(line[p..]);
    if d >= 1 && p + d < |line| && line[p + d] == '.' then TailGroup(line, p + d + 1) else None
  }

  /** `^\s*[\-\*\d]`: the line looks like a list item. */
  predicate ListLike(line: string) {
    var p := SpaceRun(line);
    p < |line| && (line[p] == '-' || line[p] == '*' || IsDigit(line[p]))
  }

  /** Length of the run of leading '#'. */
  function HashRun(s: string): (n: nat)
    ensures n <= |s|
    ensures forall k :: 0 <= k < n ==> s[k] == '#'
    ensures n < |s| ==> s[n] != '#'
  {
    if s == [] || s[0] != '#' then 0 else 1 + HashRun(s[1..])
  }

  /** `^(#{1,6})\s+(.+)$`: the level and the text of a header. Seven or more '#' do
      not match, since a shorter run would leave a '#' where a space is needed. */
  function HeaderMatch(line: string): (r: Option<(nat, string)>)
    ensures r.Some? ==> 1 <= r.value.0 <= 6 && r.value.0 == HashRun(line)
  {
    var h := HashRun(line);
    if 1 <= h <= 6 then
      match TailGroup(line, h)
        case None => None
        case Some(t) => Some((h, t))
    else None
  }

  /** `re.match(r'^[\-\*]{3,}$', line.strip())` */
  predicate IsRule(line: string) {
    var t := Strip(line);
    |t| >= 3 && forall k :: 0 <= k < |t| ==> t[k] == '-' || t[k] == '*'
  }

  // ---------------------------------------------------------------------
  // Header anchors

  predicate AnchorChar(c: char) {
    IsLowerLetter(c) || IsDigit(c) || c == '_' || c == '-'
  }

  /** `re.sub(r'[^\w\s-]', '', s)` */
  function KeepAnchorChars(s: string): (r: string)
    ensures forall k :: 0 <= k < |r| ==> IsWordChar(r[k]) || IsSpace(r[k]) || r[k] == '-'
    ensures (forall k :: 0 <= k < |s| ==> !IsUpper(s[k])) ==> forall k :: 0 <= k < |r| ==> !IsUpper(r[k])
  {
    if s == [] then []
    else
      var rest := KeepAnchorChars(s[1..]);
      if IsWordChar(s[0]) || IsSpace(s[0]) || s[0] == '-' then [s[0]] + rest else rest
  }

  /** `re.sub(r'\s+', '-', s)`: each run of white space becomes one hyphen. */
  function Hyphenate(s: string): (r: string)
    decreases |s|
    ensures forall k :: 0 <= k < |r| ==> !IsSpace(r[k])
    ensures forall k :: 0 <= k < |r| ==> r[k] == '-' || r[k] in s
  {
    if s == [] then []
    else if IsSpace(s[0]) then
      var n := SpaceRun(s);
      var rest := Hyphenate(s[n..]);
      assert forall k :: 0 <= k < |rest| && rest[k] in s[n..] ==> rest[k] in s;
      "-" + rest
    else
      var rest := Hyphenate(s[1..]);
      assert forall k :: 0 <= k < |rest| && rest[k] in s[1..] ==> rest[k] in s;
      [s[0]] + rest
  }

  /** Drop the leading hyphens. */
  function LStripDash(s: string): (r: string)
    ensures r == [] || r[0] != '-'
    ensures |r| <= |s| && r == s[|s| - |r|..]
  {
    if s != [] && s[0] == '-' then LStripDash(s[1..]) else s
  }

  /** Drop the trailing hyphens. */
  function RStripDash(s: string): (r: string)
    ensures r == [] || r[|r| - 1] != '-'
    ensures |r| <= |s| && r == s[..|r|]
  {
    if s != [] && s[|s| - 1] == '-' then RStripDash(s[..|s| - 1]) else s
  }

  /** `s.strip('-')` */
  function StripDash(s: string): (r: string)
    ensures r == [] || (r[0] != '-' && r[|r| - 1] != '-')
    ensures forall k :: 0 <= k < |r| ==> r[k] in s
  {
    var l := LStripDash(s);
    var r := RStripDash(l);
    WindowChars(s, l, r);
    r
  }

  /** A prefix of a suffix starts where the suffix starts and takes its characters from the whole. */
  lemma WindowChars(s: string, l: string, r: string)
    requires |l| <= |s| && l == s[|s| - |l|..] && |r| <= |l| && r == l[..|r|]
    ensures r != [] ==> r[0] == l[0]
    ensures forall k :: 0 <= k < |r| ==> r[k] in s
  {
    forall k | 0 <= k < |r| ensures r[k] in s {
      assert r[k] == l[k] == s[|s| - |l| + k];
    }
  }

  /** The anchor id of a header. */
  function Anchor(text: string): string {
    StripDash(Hyphenate(KeepAnchorChars(Lower(text))))
  }

  /** An anchor id is lower-case, holds only word characters and hyphens, has no white
      space, and neither starts nor ends with a hyphen. */
  lemma AnchorShape(text: string)
    ensures var a := Anchor(text);
      && (forall k :: 0 <= k < |a| ==> AnchorChar(a[k]) && !IsSpace(a[k]) && !IsUpper(a[k]))
      && (a == [] || (a[0] != '-' && a[|a| - 1] != '-'))
  {
    var l := Lower(text);
    var kept := KeepAnchorChars(l);
    var h := Hyphenate(kept);
    forall k | 0 <= k < |h| ensures AnchorChar(h[k]) {
      if h[k] != '-' {
        var j :| 0 <= j < |kept| && kept[j] == h[k];
        assert !IsUpper(kept[j]) && !IsSpace(kept[j]);
      }
    }
    var a := StripDash(h);
    forall k | 0 <= k < |a| ensures AnchorChar(a[k]) && !IsSpace(a[k]) && !IsUpper(a[k]) {
      var j :| 0 <= j < |h| && h[j] == a[k];
    }
  }

  // ---------------------------------------------------------------------
  // The line-by-line converter

  datatype ListKind = UL | OL

  /** An open list and the indentation level it was opened at. */
  datatype Entry = Entry(kind: ListKind, level: nat)

  /** An emitted HTML line. List tags are kept apart from other text so that they can
      be counted. */
  datatype Line = Raw(text: string) | Open(kind: ListKind) | Close(kind: ListKind)

  function TagName(k: ListKind): string {
    match k
    case UL => "ul"
    case OL => "ol"
  }

  function Render(l: Line): string {
    match l
    case Raw(t) => t
    case Open(k) => "<" + TagName(k) + ">"
    case Close(k) => "</" + TagName(k) + ">"
  }

  function RenderAll(ls: seq<Line>): (r: seq<string>)
    ensures |r| == |ls| && forall k :: 0 <= k < |ls| ==> r[k] == Render(ls[k])
  {
    if ls == [] then [] else [Render(ls[0])] + RenderAll(ls[1..])
  }

  /** The loop's variables: the code-block flag, the list stack (bottom first), the
      metadata buffer and the emitted lines. */
  datatype Conv = Conv(inCode: bool, stack: seq<Entry>, meta: seq<string>, out: seq<Line>)

  const Start := Conv(false, [], [], [])

  const Fence := "```"
  const FenceClose := "</code></pre>"
  const MetaOpen := "<p class=\"st-metadata\">"

  function CodeOpen(line: string): string {
    "<pre><code class=\"language-" + Strip(ReplaceAll(line, Fence, "")) + "\">"
  }

  /** The metadata buffer as one paragraph, or nothing when it is empty. */
  function Flush(meta: seq<string>, open: string): (r: seq<Line>)
    ensures meta == [] ==> r == []
    ensures meta != [] ==> r == [Raw(open + Join(meta, "<br>\n") + "</p>")]
  {
    if meta == [] then [] else [Raw(open + Join(meta, "<br>\n") + "</p>")]
  }

  function MetaHtml(key: string, value: string): string {
    "<strong>" + key + ":</strong> " + Inline(value)
  }

  function HeaderHtml(h: nat, text: string): string {
    "<h" + NatToString(h) + " id=\"" + Anchor(text) + "\">" + Inline(text) + "</h" + NatToString(h) + ">"
  }

  function ItemHtml(item: string): string {
    "<li>" + Inline(item) + "</li>"
  }

  /** Pop every list opened deeper than `level`, innermost first, emitting its
      closing tag. */
  function CloseDeeper(stack: seq<Entry>, level: nat): (r: (seq<Entry>, seq<Line>))
    ensures r.0 <= stack
    ensures r.0 == [] || r.0[|r.0| - 1].level <= level
  {
    if stack != [] && stack[|stack| - 1].level > level then
      var rest := CloseDeeper(stack[..|stack| - 1], level);
      (rest.0, [Close(stack[|stack| - 1].kind)] + rest.1)
    else (stack, [])
  }

  /** Pop every open list, innermost first. */
  function CloseAll(stack: seq<Entry>): (r: seq<Line>)
    ensures |r| == |stack|
  {
    if stack == [] then [] else [Close(stack[|stack| - 1].kind)] + CloseAll(stack[..|stack| - 1])
  }

  /** A list item: close the deeper lists, open a list of this kind when the
      remaining top is shallower (or there is none), then the item. */
  function ListItem(stack: seq<Entry>, kind: ListKind, level: nat, item: string): (seq<Entry>, seq<Line>) {
    var (s1, closes) := CloseDeeper(stack, level);
    if s1 == [] || s1[|s1| - 1].level < level then
      (s1 + [Entry(kind, level)], closes + [Open(kind), Raw(ItemHtml(item))])
    else (s1, closes + [Raw(ItemHtml(item))])
  }

  /** What a line that is neither in a code block nor a list item emits after the
      lists are closed: a header, a rule, nothing for a blank line, or a paragraph. */
  function Block(line: string): seq<Line> {
    match HeaderMatch(line)
    case Some((h, t)) => [Raw(HeaderHtml(h, t))]
    case None =>
      if IsRule(line) then [Raw("<hr>")]
      else if Strip(line) == [] then []
      else [Raw("<p>" + Inline(line) + "</p>")]
  }

  /** A code fence: flush the buffer as a plain paragraph and toggle the flag. */
  function FenceStep(st: Conv, line: string): Conv {
    var out := st.out + Flush(st.meta, "<p>");
    if st.inCode then Conv(false, st.stack, [], out + [Raw(FenceClose)])
    else Conv(true, st.stack, [], out + [Raw(CodeOpen(line))])
  }

  /** A line outside a code block that is not buffered as metadata: flush the
      buffer, then a list item, or close the lists unless the line looks like an
      item, and emit the block. */
  function TextStep(st: Conv, line: string): Conv {
    var out := st.out + Flush(st.meta, MetaOpen);
    var level := SpaceRun(line) / 2;
    match BulletMatch(line)
    case Some(item) =>
      var r := ListItem(st.stack, UL, level, item);
      Conv(false, r.0, [], out + r.1)
    case None =>
      match NumberMatch(line)
      case Some(item) =>
        var r := ListItem(st.stack, OL, level, item);
        Conv(false, r.0, [], out + r.1)
      case None =>
        if st.stack != [] && !ListLike(line) then
          Conv(false, [], [], out + CloseAll(st.stack) + Block(line))
        else Conv(false, st.stack, [], out + Block(line))
  }

  /** One iteration of the loop, for line number `i`. */
  function Step(st: Conv, i: nat, line: string): Conv {
    if Fence <= line then FenceStep(st, line)
    else if st.inCode then st.(out := st.out + [Raw(line)])
    else if MetaMatch(line).Some? && i < 5 then
      st.(meta := st.meta + [MetaHtml(MetaMatch(line).value.0, MetaMatch(line).value.1)])
    else TextStep(st, line)
  }

  /** The loop over the first |lines| lines. */
  function Run(lines: seq<string>): Conv {
    if lines == [] then Start
    else Step(Run(lines[..|lines| - 1]), |lines| - 1, lines[|lines| - 1])
  }

  /** The emitted lines, with the lists still open at the end closed. */
  function Final(text: string): seq<Line> {
    var st := Run(Split(text, '\n'));
    st.out + CloseAll(st.stack)
  }

  /** `convert_markdown_to_html` */
  function MarkdownToHtml(text: string): string {
    Join(RenderAll(Final(text)), "\n")
  }

  // ---------------------------------------------------------------------
  // Invariants of the loop

  /** List levels strictly increase from the bottom of the stack to its top. */
  predicate StackOk(stack: seq<Entry>) {
    forall j, k :: 0 <= j < k < |stack| ==> stack[j].level < stack[k].level
  }

  /** How many open lists of kind `k` the stack holds. */
  function KindCount(stack: seq<Entry>, k: ListKind): nat {
    if stack == [] then 0
    else KindCount(stack[..|stack| - 1], k) + (if stack[|stack| - 1].kind == k then 1 else 0)
  }

  /** Every emitted opening tag of kind `k` is matched by a closing tag or by a list
      still on the stack. */
  predicate BalancedFor(st: Conv, k: ListKind) {
    multiset(st.out)[Open(k)] == multiset(st.out)[Close(k)] + KindCount(st.stack, k)
  }

  predicate Wf(st: Conv) {
    && StackOk(st.stack)
    && (st.inCode ==> st.meta == [])
    && BalancedFor(st, UL) && BalancedFor(st, OL)
  }

  lemma {:induction false} CloseDeeperFacts(stack: seq<Entry>, level: nat, k: ListKind)
    ensures var (s, closes) := CloseDeeper(stack, level);
      && multiset(closes)[Open(k)] == 0
      && multiset(closes)[Close(k)] + KindCount(s, k) == KindCount(stack, k)
    decreases |stack|
  {
    if stack != [] && stack[|stack| - 1].level > level {
      CloseDeeperFacts(stack[..|stack| - 1], level, k);
    }
  }

  lemma {:induction false} CloseAllFacts(stack: seq<Entry>, k: ListKind)
    ensures multiset(CloseAll(stack))[Open(k)] == 0
    ensures multiset(CloseAll(stack))[Close(k)] == KindCount(stack, k)
    decreases |stack|
  {
    if stack != [] {
      CloseAllFacts(stack[..|stack| - 1], k);
    }
  }

  /** Closing the deeper lists leaves a strictly increasing prefix of the stack. */
  lemma CloseDeeperOk(stack: seq<Entry>, level: nat)
    requires StackOk(stack)
    ensures StackOk(CloseDeeper(stack, level).0)
  {
    var s1 := CloseDeeper(stack, level).0;
    forall j, m | 0 <= j < m < |s1| ensures s1[j].level < s1[m].level {
      assert s1[j] == stack[j] && s1[m] == stack[m];
    }
  }

  /** Pushing a list deeper than the top keeps the stack strictly increasing. */
  lemma PushOk(s1: seq<Entry>, e: Entry)
    requires StackOk(s1) && (s1 == [] || s1[|s1| - 1].level < e.level)
    ensures StackOk(s1 + [e])
  {
    var s := s1 + [e];
    forall j, m | 0 <= j < m < |s| ensures s[j].level < s[m].level {
      if m == |s| - 1 && j < |s1| - 1 {
        assert s1[j].level < s1[|s1| - 1].level;
      }
    }
  }

  lemma PushCount(s1: seq<Entry>, e: Entry, k: ListKind)
    ensures KindCount(s1 + [e], k) == KindCount(s1, k) + (if e.kind == k then 1 else 0)
  {
    assert (s1 + [e])[..|s1 + [e]| - 1] == s1;
  }

  /** After a list item the stack stays strictly increasing, its top is the item's
      level, and the item is the last line emitted. Only the lists deeper than the
      item are closed, and at most one list is opened. */
  lemma ListItemFacts(stack: seq<Entry>, kind: ListKind, level: nat, item: string, k: ListKind)
    requires StackOk(stack)
    ensures ItemResult(stack, ListItem(stack, kind, level, item), level, Raw(ItemHtml(item)), k)
  {
    CloseDeeperFacts(stack, level, k);
    CloseDeeperOk(stack, level);
    var cd := CloseDeeper(stack, level);
    var li := Raw(ItemHtml(item));
    if cd.0 == [] || cd.0[|cd.0| - 1].level < level {
      assert ListItem(stack, kind, level, item) == (cd.0 + [Entry(kind, level)], cd.1 + [Open(kind), li]);
      PushItem(stack, cd.0, cd.1, kind, level, li, k);
    } else {
      assert ListItem(stack, kind, level, item) == (cd.0, cd.1 + [li]);
      KeepItem(stack, cd.0, cd.1, level, li, k);
    }
  }

  /** What a list item leaves: a strictly increasing stack whose top is the item's
      level, the item as the last line, the balance of kind `k` kept, and at most
      one opening tag. */
  predicate ItemResult(stack: seq<Entry>, r: (seq<Entry>, seq<Line>), level: nat, li: Line, k: ListKind) {
    && StackOk(r.0) && r.0 != [] && r.0[|r.0| - 1].level == level
    && r.1 != [] && r.1[|r.1| - 1] == li
    && multiset(r.1)[Open(k)] + KindCount(stack, k) == multiset(r.1)[Close(k)] + KindCount(r.0, k)
    && multiset(r.1)[Open(k)] <= 1
  }

  /** An item that opens a new list: the list is pushed, then the item. */
  lemma PushItem(stack: seq<Entry>, s1: seq<Entry>, closes: seq<Line>, kind: ListKind, level: nat, li: Line, k: ListKind)
    requires StackOk(s1) && (s1 == [] || s1[|s1| - 1].level < level) && li.Raw?
    requires multiset(closes)[Open(k)] == 0 && multiset(closes)[Close(k)] + KindCount(s1, k) == KindCount(stack, k)
    ensures ItemResult(stack, (s1 + [Entry(kind, level)], closes + [Open(kind), li]), level, li, k)
  {
    PushOk(s1, Entry(kind, level));
    PushCount(s1, Entry(kind, level), k);
    assert multiset(closes + [Open(kind), li]) == multiset(closes) + multiset{Open(kind)} + multiset{li};
  }

  /** An item for a list already open at its level. */
  lemma KeepItem(stack: seq<Entry>, s1: seq<Entry>, closes: seq<Line>, level: nat, li: Line, k: ListKind)
    requires StackOk(s1) && s1 != [] && s1[|s1| - 1].level == level && li.Raw?
    requires multiset(closes)[Open(k)] == 0 && multiset(closes)[Close(k)] + KindCount(s1, k) == KindCount(stack, k)
    ensures ItemResult(stack, (s1, closes + [li]), level, li, k)
  {
    assert multiset(closes + [li]) == multiset(closes) + multiset{li};
  }

  lemma FlushNoTags(meta: seq<string>, open: string, k: ListKind)
    ensures multiset(Flush(meta, open))[Open(k)] == 0 && multiset(Flush(meta, open))[Close(k)] == 0
  {
  }

  lemma BlockNoTags(line: string, k: ListKind)
    ensures multiset(Block(line))[Open(k)] == 0 && multiset(Block(line))[Close(k)] == 0
  {
  }

  lemma ItemBalance(st: Conv, kind: ListKind, level: nat, item: string, k: ListKind)
    requires Wf(st)
    ensures var r := ListItem(st.stack, kind, level, item);
      BalancedFor(Conv(false, r.0, [], st.out + Flush(st.meta, MetaOpen) + r.1), k)
  {
    ListItemFacts(st.stack, kind, level, item, k);
    FlushNoTags(st.meta, MetaOpen, k);
    assert BalancedFor(st, k);
    LinesBalance(st, Flush(st.meta, MetaOpen), ListItem(st.stack, kind, level, item), k);
  }

  lemma LinesBalance(st: Conv, fl: seq<Line>, r: (seq<Entry>, seq<Line>), k: ListKind)
    requires BalancedFor(st, k) && multiset(fl)[Open(k)] == 0 && multiset(fl)[Close(k)] == 0
    requires multiset(r.1)[Open(k)] + KindCount(st.stack, k) == multiset(r.1)[Close(k)] + KindCount(r.0, k)
    ensures BalancedFor(Conv(false, r.0, [], st.out + fl + r.1), k)
  {
    assert multiset(st.out + fl + r.1) == multiset(st.out) + multiset(fl) + multiset(r.1);
  }

  lemma ItemWf(st: Conv, kind: ListKind, level: nat, item: string)
    requires Wf(st)
    ensures var r := ListItem(st.stack, kind, level, item);
      Wf(Conv(false, r.0, [], st.out + Flush(st.meta, MetaOpen) + r.1))
  {
    ListItemFacts(st.stack, kind, level, item, UL);
    ItemBalance(st, kind, level, item, UL);
    ItemBalance(st, kind, level, item, OL);
  }

  lemma ClosedBlockBalance(st: Conv, fl: seq<Line>, b: seq<Line>, k: ListKind)
    requires BalancedFor(st, k)
    requires multiset(fl)[Open(k)] == 0 && multiset(fl)[Close(k)] == 0
    requires multiset(b)[Open(k)] == 0 && multiset(b)[Close(k)] == 0
    ensures BalancedFor(Conv(false, [], [], st.out + fl + CloseAll(st.stack) + b), k)
  {
    var ca := CloseAll(st.stack);
    CloseAllFacts(st.stack, k);
    var all := st.out + fl + ca + b;
    assert multiset(all) == multiset(st.out) + multiset(fl) + multiset(ca) + multiset(b);
  }

  lemma OpenBlockBalance(st: Conv, fl: seq<Line>, b: seq<Line>, k: ListKind)
    requires BalancedFor(st, k)
    requires multiset(fl)[Open(k)] == 0 && multiset(fl)[Close(k)] == 0
    requires multiset(b)[Open(k)] == 0 && multiset(b)[Close(k)] == 0
    ensures BalancedFor(Conv(false, st.stack, [], st.out + fl + b), k)
  {
    var all := st.out + fl + b;
    assert multiset(all) == multiset(st.out) + multiset(fl) + multiset(b);
  }

  lemma BlockBalance(st: Conv, b: seq<Line>, closeAll: bool, k: ListKind)
    requires Wf(st)
    requires multiset(b)[Open(k)] == 0 && multiset(b)[Close(k)] == 0
    ensures var fl := Flush(st.meta, MetaOpen);
      if closeAll then BalancedFor(Conv(false, [], [], st.out + fl + CloseAll(st.stack) + b), k)
      else BalancedFor(Conv(false, st.stack, [], st.out + fl + b), k)
  {
    var fl := Flush(st.meta, MetaOpen);
    FlushNoTags(st.meta, MetaOpen, k);
    if closeAll {
      ClosedBlockBalance(st, fl, b, k);
    } else {
      OpenBlockBalance(st, fl, b, k);
    }
  }

  lemma TextStepWf(st: Conv, line: string)
    requires Wf(st)
    ensures Wf(TextStep(st, line))
  {
    var level := SpaceRun(line) / 2;
    match BulletMatch(line)
    case Some(item) =>
      ItemWf(st, UL, level, item);
    case None =>
      match NumberMatch(line)
      case Some(item) =>
        ItemWf(st, OL, level, item);
      case None =>
        var closeAll := st.stack != [] && !ListLike(line);
        BlockNoTags(line, UL);
        BlockNoTags(line, OL);
        BlockBalance(st, Block(line), closeAll, UL);
        BlockBalance(st, Block(line), closeAll, OL);
  }

  lemma FenceStepWf(st: Conv, line: string)
    requires Wf(st)
    ensures Wf(FenceStep(st, line))
  {
    var out := st.out + Flush(st.meta, "<p>");
    var tag := if st.inCode then FenceClose else CodeOpen(line);
    FlushNoTags(st.meta, "<p>", UL);
    FlushNoTags(st.meta, "<p>", OL);
    assert multiset(out + [Raw(tag)]) == multiset(st.out) + multiset(Flush(st.meta, "<p>")) + multiset{Raw(tag)};
  }

  lemma StepWf(st: Conv, i: nat, line: string)
    requires Wf(st)
    ensures Wf(Step(st, i, line))
  {
    if Fence <= line {
      FenceStepWf(st, line);
    } else if st.inCode {
      assert multiset(st.out + [Raw(line)]) == multiset(st.out) + multiset{Raw(line)};
    } else if MetaMatch(line).Some? && i < 5 {
    } else {
      TextStepWf(st, line);
    }
  }

  /** The invariants hold after every line. */
  lemma {:induction false} RunWf(lines: seq<string>)
    ensures Wf(Run(lines))
    decreases |lines|
  {
    if lines != [] {
      RunWf(lines[..|lines| - 1]);
      StepWf(Run(lines[..|lines| - 1]), |lines| - 1, lines[|lines| - 1]);
    }
  }

  /** In the finished output every `<ul>` has a `</ul>` and every `<ol>` an `</ol>`. */
  lemma FinalBalanced(text: string)
    ensures multiset(Final(text))[Open(UL)] == multiset(Final(text))[Close(UL)]
    ensures multiset(Final(text))[Open(OL)] == multiset(Final(text))[Close(OL)]
    ensures StackOk(Run(Split(text, '\n')).stack)
  {
    var st := Run(Split(text, '\n'));
    RunWf(Split(text, '\n'));
    CloseAllFacts(st.stack, UL);
    CloseAllFacts(st.stack, OL);
  }

  /** The metadata buffer only ever holds lines among the first five. */
  lemma {:induction false} MetaBounded(lines: seq<string>)
    ensures |Run(lines).meta| <= |lines| && |Run(lines).meta| <= 5
    decreases |lines|
  {
    if lines != [] {
      MetaBounded(lines[..|lines| - 1]);
    }
  }

  /** A metadata line among the first five is buffered and emits nothing; any other
      line outside a code block empties the buffer, and a non-empty buffer becomes one
      `st-metadata` paragraph ahead of whatever that line emits. */
  lemma MetaRule(st: Conv, i: nat, line: string)
    requires !st.inCode
    ensures var st1 := Step(st, i, line);
      if MetaMatch(line).Some? && i < 5 then
        st1.out == st.out && st1.stack == st.stack && !st1.inCode
        && st1.meta == st.meta + [MetaHtml(MetaMatch(line).value.0, MetaMatch(line).value.1)]
      else
        st1.meta == []
        && st.out + Flush(st.meta, if Fence <= line then "<p>" else MetaOpen) <= st1.out
  {
    if Fence <= line {
      assert line[0] == '`';
    }
  }

  /** A fence always toggles the code-block flag; it flushes the buffer as a plain
      paragraph and emits the opening `<pre><code>` or the closing tag. No other line
      changes the flag. */
  lemma FenceRule(st: Conv, i: nat, line: string)
    ensures var st1 := Step(st, i, line);
      if Fence <= line then
        st1.inCode == !st.inCode && st1.stack == st.stack && st1.meta == []
        && st1.out == st.out + Flush(st.meta, "<p>") + [Raw(if st.inCode then FenceClose else CodeOpen(line))]
      else st1.inCode == st.inCode
  {
  }

  function RawAll(block: seq<string>): (r: seq<Line>)
    ensures |r| == |block| && forall k :: 0 <= k < |block| ==> r[k] == Raw(block[k])
  {
    if block == [] then [] else RawAll(block[..|block| - 1]) + [Raw(block[|block| - 1])]
  }

  /** Inside a code block, every line up to the next fence is copied verbatim and
      nothing else changes. */
  lemma {:induction false} CodeBlockVerbatim(pre: seq<string>, block: seq<string>)
    requires Run(pre).inCode
    requires forall k :: 0 <= k < |block| ==> !(Fence <= block[k])
    ensures Run(pre + block) == Run(pre).(out := Run(pre).out + RawAll(block))
    decreases |block|
  {
    if block == [] {
      assert pre + block == pre;
    } else {
      var b := block[..|block| - 1];
      assert (pre + block)[..|pre + block| - 1] == pre + b;
      CodeBlockVerbatim(pre, b);
      assert RawAll(block) == RawAll(b) + [Raw(block[|block| - 1])];
      assert Run(pre).out + RawAll(b) + [Raw(block[|block| - 1])] == Run(pre).out + RawAll(block);
    }
  }

  /** A line starting with '#' is neither a fence, metadata nor a list item. */
  lemma HashLineIsText(line: string)
    requires line != [] && line[0] == '#'
    ensures !(Fence <= line) && MetaMatch(line).None?
    ensures BulletMatch(line).None? && NumberMatch(line).None? && !ListLike(line)
  {
    assert SpaceRun(line) == 0;
    assert line[0..] == line;
    assert DigitRun(line) == 0;
  }

  /** A line that reaches the block stage and is not a list item. */
  lemma TextBlock(st: Conv, line: string)
    requires BulletMatch(line).None? && NumberMatch(line).None? && !ListLike(line)
    ensures TextStep(st, line) == Conv(false, [], [], st.out + Flush(st.meta, MetaOpen) + CloseAll(st.stack) + Block(line))
  {
    if st.stack == [] {
      AppendNothing(st.out + Flush(st.meta, MetaOpen), CloseAll(st.stack), Block(line));
    }
  }

  lemma AppendNothing(a: seq<Line>, e: seq<Line>, b: seq<Line>)
    requires |e| == 0
    ensures a + e + b == a + b
  {
  }

  /** A header line outside a code block closes every open list and emits one
      `<hN id="anchor">` line whose N is its count of leading '#', between 1 and 6. */
  lemma HeaderRule(st: Conv, i: nat, line: string)
    requires !st.inCode && HeaderMatch(line).Some?
    ensures var (h, t) := HeaderMatch(line).value;
      && 1 <= h <= 6 && h == HashRun(line) && t != []
      && Step(st, i, line) == Conv(false, [], [], st.out + Flush(st.meta, MetaOpen) + CloseAll(st.stack) + [Raw(HeaderHtml(h, t))])
  {
    HashLineIsText(line);
    TextBlock(st, line);
  }

  /** A blank or all-white-space line outside a code block emits nothing of its own:
      only the buffered metadata and the closing tags of the open lists. */
  lemma BlankRule(st: Conv, i: nat, line: string)
    requires !st.inCode && AllSpace(line)
    ensures Step(st, i, line) == Conv(false, [], [], st.out + Flush(st.meta, MetaOpen) + CloseAll(st.stack))
  {
    BlankLineIsText(line);
    TextBlock(st, line);
    assert Block(line) == [];
  }

  lemma BlankLineIsText(line: string)
    requires AllSpace(line)
    ensures !(Fence <= line) && MetaMatch(line).None?
    ensures BulletMatch(line).None? && NumberMatch(line).None? && !ListLike(line)
    ensures HeaderMatch(line).None? && !IsRule(line) && Strip(line) == []
  {
    var p := SpaceRun(line);
    assert p == |line|;
    assert line != [] ==> IsSpace(line[0]);
    assert HashRun(line) == 0;
    assert DigitRun(line[p..]) == 0;
  }

  // ---------------------------------------------------------------------
  // The converter as the source writes it: one loop over the lines

  /** `while list_stack and list_stack[-1]['level'] > indent_level: pop` */
  method PopDeeper(stack: seq<Entry>, html: seq<Line>, level: nat) returns (s: seq<Entry>, h: seq<Line>)
    ensures s == CloseDeeper(stack, level).0 && h == html + CloseDeeper(stack, level).1
  {
    s, h := stack, html;
    while s != [] && s[|s| - 1].level > level
      invariant CloseDeeper(s, level).0 == CloseDeeper(stack, level).0
      invariant h + CloseDeeper(s, level).1 == html + CloseDeeper(stack, level).1
      decreases |s|
    {
      var top := s[|s| - 1];
      ghost var rest := CloseDeeper(s[..|s| - 1], level).1;
      assert h + CloseDeeper(s, level).1 == (h + [Close(top.kind)]) + rest;
      h := h + [Close(top.kind)];
      s := s[..|s| - 1];
    }
  }

  /** `while list_stack: pop` */
  method PopAll(stack: seq<Entry>, html: seq<Line>) returns (h: seq<Line>)
    ensures h == html + CloseAll(stack)
  {
    var s := stack;
    h := html;
    while s != []
      invariant h + CloseAll(s) == html + CloseAll(stack)
      decreases |s|
    {
      var top := s[|s| - 1];
      assert h + CloseAll(s) == (h + [Close(top.kind)]) + CloseAll(s[..|s| - 1]);
      h := h + [Close(top.kind)];
      s := s[..|s| - 1];
    }
  }

  /** The list-item branch: close deeper lists, open one if needed, emit the item. */
  method AddItem(stack: seq<Entry>, html: seq<Line>, kind: ListKind, level: nat, item: string)
    returns (s: seq<Entry>, h: seq<Line>)
    ensures s == ListItem(stack, kind, level, item).0 && h == html + ListItem(stack, kind, level, item).1
  {
    s, h := PopDeeper(stack, html, level);
    ghost var closes := CloseDeeper(stack, level).1;
    if s == [] || s[|s| - 1].level < level {
      h := h + [Open(kind)];
      s := s + [Entry(kind, level)];
      assert h + [Raw(ItemHtml(item))] == html + (closes + [Open(kind), Raw(ItemHtml(item))]);
    } else {
      assert h + [Raw(ItemHtml(item))] == html + (closes + [Raw(ItemHtml(item))]);
    }
    h := h + [Raw(ItemHtml(item))];
  }

  /** Flush a non-empty metadata buffer as one paragraph. */
  method FlushMeta(meta: seq<string>, html: seq<Line>, open: string) returns (h: seq<Line>)
    ensures h == html + Flush(meta, open)
  {
    h := html;
    if meta != [] {
      h := h + [Raw(open + Join(meta, "<br>\n") + "</p>")];
    }
  }

  /** The text branch of one iteration, after the metadata test. */
  method TextLine(stack: seq<Entry>, meta: seq<string>, html: seq<Line>, line: string)
    returns (s: seq<Entry>, h: seq<Line>)
    ensures Conv(false, s, [], h) == TextStep(Conv(false, stack, meta, html), line)
  {
    h := FlushMeta(meta, html, MetaOpen);
    var level := SpaceRun(line) / 2;
    var ul := BulletMatch(line);
    if ul.Some? {
      s, h := AddItem(stack, h, UL, level, ul.value);
      return;
    }
    var ol := NumberMatch(line);
    if ol.Some? {
      s, h := AddItem(stack, h, OL, level, ol.value);
      return;
    }
    s := stack;
    if s != [] && !ListLike(line) {
      h := PopAll(s, h);
      s := [];
    }
    var header := HeaderMatch(line);
    if header.Some? {
      h := h + [Raw(HeaderHtml(header.value.0, header.value.1))];
    } else if IsRule(line) {
      h := h + [Raw("<hr>")];
    } else if Strip(line) != [] {
      h := h + [Raw("<p>" + Inline(line) + "</p>")];
    }
  }

  /** `convert_markdown_to_html` */
  method ConvertMarkdownToHtml(markdown: string) returns (html: string)
    ensures html == MarkdownToHtml(markdown)
  {
    var lines := Split(markdown, '\n');
    var htmlLines: seq<Line> := [];
    var inCode := false;
    var stack: seq<Entry> := [];
    var meta: seq<string> := [];
    var i := 0;
    while i < |lines|
      invariant 0 <= i <= |lines|
      invariant Conv(inCode, stack, meta, htmlLines) == Run(lines[..i])
    {
      RunStep(lines, i);
      inCode, stack, meta, htmlLines := ConvertLine(inCode, stack, meta, htmlLines, i, lines[i]);
      i := i + 1;
    }
    assert lines[..i] == lines;
    htmlLines := PopAll(stack, htmlLines);
    html := Join(RenderAll(htmlLines), "\n");
  }

  lemma RunStep(lines: seq<string>, i: nat)
    requires i < |lines|
    ensures Run(lines[..i + 1]) == Step(Run(lines[..i]), i, lines[i])
  {
    assert lines[..i + 1][..i] == lines[..i];
  }

  /** The body of the loop over the lines, for line number `i`. */
  method ConvertLine(inCode0: bool, stack0: seq<Entry>, meta0: seq<string>, html0: seq<Line>, i: nat, line: string)
    returns (inCode: bool, stack: seq<Entry>, meta: seq<string>, htmlLines: seq<Line>)
    ensures Conv(inCode, stack, meta, htmlLines) == Step(Conv(inCode0, stack0, meta0, html0), i, line)
  {
    inCode, stack, meta, htmlLines := inCode0, stack0, meta0, html0;
    if Fence <= line {
      htmlLines := FlushMeta(meta, htmlLines, "<p>");
      meta := [];
      if inCode {
        htmlLines := htmlLines + [Raw(FenceClose)];
        inCode := false;
      } else {
        htmlLines := htmlLines + [Raw(CodeOpen(line))];
        inCode := true;
      }
    } else if inCode {
      htmlLines := htmlLines + [Raw(line)];
    } else {
      var metadata := MetaMatch(line);
      if metadata.Some? && i < 5 {
        meta := meta + [MetaHtml(metadata.value.0, metadata.value.1)];
      } else {
        stack, htmlLines := TextLine(stack, meta, htmlLines, line);
        meta := [];
      }
    }
  }
}
