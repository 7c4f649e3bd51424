/** The block parser of components/common/MarkdownRenderer.tsx: the content
    is split into lines, each line is trimmed and classified as a heading,
    a list item, a paragraph or a blank line, consecutive list items are
    gathered into one list, and `**bold**` spans are rewritten into strong
    elements. */
module Markdown {
  import opened Common
  import opened Strings
  import opened Lists

  // ---------------------------------------------------------------------
  // Bold spans: `line.replace(/\*\*(.*?)\*\*/g, ...)`
  // ---------------------------------------------------------------------

  const StrongOpen: string := "<strong class=\"font-bold text-slate-900 dark:text-slate-100\">"
  const StrongClose: string := "</strong>"

  /** The characters the regular-expression `.` does not match. */
  predicate IsLineTerminator(c: char)
  {
    c == '\n' || c == '\r' || c == '\U{2028}' || c == '\U{2029}'
  }

  /** A `**` marker starts at position `k`. */
  predicate MarkerAt(s: string, k: int)
  {
    0 <= k && k + 1 < |s| && s[k] == '*' && s[k + 1] == '*'
  }

  lemma MarkerAtIff(s: string, k: int)
    ensures MarkerAt(s, k) <==> OccursAt(s, "**", k)
  {
    if OccursAt(s, "**", k) {
      assert s[k..k + 2][0] == s[k] && s[k..k + 2][1] == s[k + 1];
    }
    if MarkerAt(s, k) {
      assert s[k..k + 2] == "**";
    }
  }

  /** Where the lazy `(.*?)\*\*` starting at `k` ends: the first `**` at or
      after `k` with no line terminator before it, if any. */
  function CloseAt(s: string, k: nat): (r: Option<nat>)
    ensures r.Some? ==> k <= r.value && MarkerAt(s, r.value)
    decreases |s| - k
  {
    if MarkerAt(s, k) then Some(k)
    else if k < |s| && !IsLineTerminator(s[k]) then CloseAt(s, k + 1)
    else None
  }

  /** On success no `**` and no line terminator comes first; on failure
      every later `**` has a line terminator before it. */
  lemma {:induction false} CloseAtSpec(s: string, k: nat)
    ensures var r := CloseAt(s, k);
      r.Some? ==> forall t :: k <= t < r.value ==> !IsLineTerminator(s[t]) && !MarkerAt(s, t)
    ensures CloseAt(s, k).None? ==> forall j :: k <= j && MarkerAt(s, j) ==>
      exists t :: k <= t < j && IsLineTerminator(s[t])
    decreases |s| - k
  {
    if MarkerAt(s, k) {
    } else if k < |s| && !IsLineTerminator(s[k]) {
      CloseAtSpec(s, k + 1);
    } else if k < |s| {
      forall j | k <= j && MarkerAt(s, j) ensures exists t :: k <= t < j && IsLineTerminator(s[t]) {
        assert j != k;
        assert IsLineTerminator(s[k]);
      }
    }
  }

  /** A piece of a line after matching: one character copied as it is, or
      the inside of a `**...**` match. */
  datatype Span = Plain(c: char) | Bold(inner: string)

  /** A match of the pattern starts at `i`: a marker whose lazy match
      closes. */
  predicate MatchAt(s: string, i: nat)
  {
    MarkerAt(s, i) && CloseAt(s, i + 2).Some?
  }

  /** The span the scan produces at position `i`. */
  function Head(s: string, i: nat): Span
    requires i < |s|
  {
    if MatchAt(s, i) then Bold(s[i + 2..CloseAt(s, i + 2).value]) else Plain(s[i])
  }

  /** Where the scan resumes after the span at `i`. */
  function Next(s: string, i: nat): (r: nat)
    requires i < |s|
    ensures i < r <= |s|
  {
    if MatchAt(s, i) then CloseAt(s, i + 2).value + 2 else i + 1
  }

  /** The global replace, scanning left to right from position `i`. */
  function ParseFrom(s: string, i: nat): seq<Span>
    requires i <= |s|
    decreases |s| - i
  {
    if i == |s| then [] else [Head(s, i)] + ParseFrom(s, Next(s, i))
  }

  function ParseBold(s: string): seq<Span>
  {
    ParseFrom(s, 0)
  }

  /** The text a span was matched from. */
  function SpanText(sp: Span): string
  {
    match sp
    case Plain(c) => [c]
    case Bold(x) => "**" + x + "**"
  }

  /** The text a span is replaced by. */
  function SpanHtml(sp: Span): string
  {
    match sp
    case Plain(c) => [c]
    case Bold(x) => StrongOpen + x + StrongClose
  }

  function Unparse(spans: seq<Span>): string
  {
    if spans == [] then "" else SpanText(spans[0]) + Unparse(spans[1..])
  }

  function Html(spans: seq<Span>): string
  {
    if spans == [] then "" else SpanHtml(spans[0]) + Html(spans[1..])
  }

  /** renderLine's replacement. */
  function RenderBold(line: string): string
  {
    Html(ParseBold(line))
  }

  lemma UnparseCons(sp: Span, rest: seq<Span>)
    ensures Unparse([sp] + rest) == SpanText(sp) + Unparse(rest)
  {
    assert ([sp] + rest)[0] == sp && ([sp] + rest)[1..] == rest;
  }

  lemma HtmlCons(sp: Span, rest: seq<Span>)
    ensures Html([sp] + rest) == SpanHtml(sp) + Html(rest)
  {
    assert ([sp] + rest)[0] == sp && ([sp] + rest)[1..] == rest;
  }

  /** The span at `i` spells out the text up to where the scan resumes. */
  lemma HeadText(s: string, i: nat)
    requires i < |s|
    ensures s[i..] == SpanText(Head(s, i)) + s[Next(s, i)..]
  {
    if MatchAt(s, i) {
      BoldText(s, i, CloseAt(s, i + 2).value);
    } else {
      assert s[i..] == [s[i]] + s[i + 1..];
    }
  }

  /** A slice cut at two markers: the opening one at `i`, the closing one
      at `j`. */
  lemma BoldText(s: string, i: nat, j: nat)
    requires i + 2 <= j && MarkerAt(s, i) && MarkerAt(s, j)
    ensures s[i..] == SpanText(Bold(s[i + 2..j])) + s[j + 2..]
  {
    var x, rest := s[i + 2..j], s[j + 2..];
    MarkerAtIff(s, i);
    MarkerAtIff(s, j);
    Cut(s, i, i + 2);
    Cut(s, i + 2, j);
    Cut(s, j, j + 2);
    assert s[i..] == "**" + (x + ("**" + rest));
    Assoc("**", x, "**", rest);
  }

  lemma Cut(s: string, i: nat, j: nat)
    requires i <= j <= |s|
    ensures s[i..] == s[i..j] + s[j..]
  {
  }

  lemma Assoc(a: string, b: string, c: string, d: string)
    ensures a + (b + (c + d)) == a + b + c + d
  {
  }

  lemma {:induction false} ParseFromRoundTrip(s: string, i: nat)
    requires i <= |s|
    ensures Unparse(ParseFrom(s, i)) == s[i..]
    decreases |s| - i
  {
    if i < |s| {
      ParseFromRoundTrip(s, Next(s, i));
      UnparseCons(Head(s, i), ParseFrom(s, Next(s, i)));
      HeadText(s, i);
    }
  }

  /** Matching loses nothing: the spans spell out the line again. */
  lemma ParseRoundTrip(s: string)
    ensures Unparse(ParseBold(s)) == s
  {
    ParseFromRoundTrip(s, 0);
  }

  predicate WellFormedBold(inner: string)
  {
    !Contains(inner, "**") && forall t :: 0 <= t < |inner| ==> !IsLineTerminator(inner[t])
  }

  /** Every bold span of `spans` is well formed. */
  predicate BoldOk(spans: seq<Span>)
  {
    spans == [] || ((spans[0].Bold? ==> WellFormedBold(spans[0].inner)) && BoldOk(spans[1..]))
  }

  lemma {:induction false} BoldOkMembers(spans: seq<Span>)
    requires BoldOk(spans)
    ensures forall sp :: sp in spans && sp.Bold? ==> WellFormedBold(sp.inner)
  {
    if spans != [] {
      BoldOkMembers(spans[1..]);
      assert forall sp :: sp in spans ==> sp == spans[0] || sp in spans[1..];
    }
  }

  lemma BoldOkCons(sp: Span, rest: seq<Span>)
    requires (sp.Bold? ==> WellFormedBold(sp.inner)) && BoldOk(rest)
    ensures BoldOk([sp] + rest)
  {
    assert ([sp] + rest)[0] == sp && ([sp] + rest)[1..] == rest;
  }

  /** The text between an opening `**` and the end of its lazy match. */
  lemma BoldInnerWellFormed(s: string, k: nat, j: nat)
    requires CloseAt(s, k) == Some(j)
    ensures WellFormedBold(s[k..j])
  {
    CloseAtSpec(s, k);
    var inner := s[k..j];
    ContainsIff(inner, "**");
    forall t | OccursAt(inner, "**", t) ensures MarkerAt(s, k + t) {
      MarkerAtIff(inner, t);
    }
    forall t | 0 <= t < |inner| ensures !IsLineTerminator(inner[t]) {
      assert inner[t] == s[k + t];
    }
  }

  lemma HeadWellFormed(s: string, i: nat)
    requires i < |s|
    ensures Head(s, i).Bold? ==> WellFormedBold(Head(s, i).inner)
  {
    if MatchAt(s, i) {
      BoldInnerWellFormed(s, i + 2, CloseAt(s, i + 2).value);
    }
  }

  lemma {:induction false} ParseFromBold(s: string, i: nat)
    requires i <= |s|
    ensures BoldOk(ParseFrom(s, i))
    decreases |s| - i
  {
    if i < |s| {
      ParseFromBold(s, Next(s, i));
      HeadWellFormed(s, i);
      BoldOkCons(Head(s, i), ParseFrom(s, Next(s, i)));
    }
  }

  /** The matches are lazy and stay on one line: no bold text holds `**`
      or a line terminator. */
  lemma BoldSpansWellFormed(s: string)
    ensures forall sp :: sp in ParseBold(s) && sp.Bold? ==> WellFormedBold(sp.inner)
  {
    ParseFromBold(s, 0);
    BoldOkMembers(ParseBold(s));
  }

  lemma {:induction false} ParseFromPlain(s: string, i: nat)
    requires i <= |s| && forall j :: i <= j ==> !MarkerAt(s, j)
    ensures Html(ParseFrom(s, i)) == s[i..]
    decreases |s| - i
  {
    if i < |s| {
      assert !MarkerAt(s, i);
      ParseFromPlain(s, i + 1);
      HtmlCons(Plain(s[i]), ParseFrom(s, i + 1));
      assert s[i..] == [s[i]] + s[i + 1..];
    }
  }

  /** A line without `**` is rendered unchanged. */
  lemma NoMarkersUnchanged(s: string)
    requires !Contains(s, "**")
    ensures RenderBold(s) == s
  {
    ContainsIff(s, "**");
    forall j | 0 <= j ensures !MarkerAt(s, j) {
      MarkerAtIff(s, j);
    }
    ParseFromPlain(s, 0);
  }

  /** The match is not greedy: in `**a**b**` only `a` is bold and the
      trailing `b**` is copied. */
  lemma LazyMatch()
    ensures RenderBold("**a**b**") == StrongOpen + "a" + StrongClose + "b**"
  {
    var s := "**a**b**";
    assert !MarkerAt(s, 2) && MarkerAt(s, 3);
    assert CloseAt(s, 2) == Some(3);
    assert s[2..3] == "a";
    assert Head(s, 0) == Bold("a") && Next(s, 0) == 5;
    assert !MarkerAt(s, 5);
    assert Head(s, 5) == Plain('b') && Next(s, 5) == 6;
    assert !MarkerAt(s, 8) && CloseAt(s, 8) == None;
    assert Head(s, 6) == Plain('*') && Next(s, 6) == 7;
    assert !MarkerAt(s, 7);
    assert Head(s, 7) == Plain('*') && Next(s, 7) == 8;
    var tail := [Plain('b'), Plain('*'), Plain('*')];
    assert ParseFrom(s, 7) == [Plain('*')];
    assert ParseFrom(s, 5) == tail;
    assert Html(tail) == "b**" by {
      HtmlCons(Plain('b'), tail[1..]);
      HtmlCons(Plain('*'), tail[2..]);
      HtmlCons(Plain('*'), []);
    }
    HtmlCons(Bold("a"), tail);
  }

  // ---------------------------------------------------------------------
  // Blocks
  // ---------------------------------------------------------------------

  /** An emitted element. The texts are the raw line parts; each is passed
      through RenderBold when displayed. */
  datatype Block = Heading(text: string) | Paragraph(text: string) | BulletList(items: seq<string>)

  datatype LineKind = HeadingLine(text: string) | ItemLine(text: string) | TextLine(text: string) | BlankLine

  /** The branches of the line loop, on the trimmed line. */
  function Classify(raw: string): LineKind
  {
    ClassifyTrimmed(Trim(raw))
  }

  function ClassifyTrimmed(line: string): LineKind
  {
    if StartsWith(line, "### ") then HeadingLine(line[4..])
    else if StartsWith(line, "* ") then ItemLine(line[2..])
    else if line != "" then TextLine(line)
    else BlankLine
  }

  lemma ClassifyTrimmedSpec(line: string)
    ensures var k := ClassifyTrimmed(line);
      && (k.HeadingLine? <==> StartsWith(line, "### "))
      && (k.HeadingLine? ==> line == "### " + k.text)
      && (k.ItemLine? <==> !StartsWith(line, "### ") && StartsWith(line, "* "))
      && (k.ItemLine? ==> line == "* " + k.text)
      && (k.TextLine? ==> k.text == line && k.text != "")
      && (k.BlankLine? <==> line == "")
  {
    if StartsWith(line, "### ") {
      assert line == line[..4] + line[4..];
    } else if StartsWith(line, "* ") {
      assert line == line[..2] + line[2..];
    }
  }

  /** A heading line is the marker `### ` and its text once trimmed, an
      item line the marker `* ` and its text, a paragraph the whole trimmed
      line; a line is skipped exactly when it is blank. */
  lemma ClassifySpec(raw: string)
    ensures var k := Classify(raw);
      && (k.HeadingLine? <==> StartsWith(Trim(raw), "### "))
      && (k.HeadingLine? ==> Trim(raw) == "### " + k.text)
      && (k.ItemLine? <==> !StartsWith(Trim(raw), "### ") && StartsWith(Trim(raw), "* "))
      && (k.ItemLine? ==> Trim(raw) == "* " + k.text)
      && (k.TextLine? ==> k.text == Trim(raw) && k.text != "")
      && (k.BlankLine? <==> IsBlank(raw))
  {
    ClassifyTrimmedSpec(Trim(raw));
    TrimProperties(raw);
  }

  /** flushList: the pending items as one list, or nothing. */
  function Flush(pending: seq<string>): seq<Block>
  {
    if |pending| > 0 then [BulletList(pending)] else []
  }

  /** The classified lines of the content. */
  function Kinds(lines: seq<string>): seq<LineKind>
  {
    Map(lines, Classify)
  }

  /** What one line emits, given the pending list items: a heading or a
      paragraph first flushes the list; an item or a blank line emits
      nothing. */
  function Emit(k: LineKind, pending: seq<string>): seq<Block>
  {
    match k
    case HeadingLine(t) => Flush(pending) + [Heading(t)]
    case TextLine(t) => Flush(pending) + [Paragraph(t)]
    case _ => []
  }

  /** The pending list items after one line. */
  function Carry(k: LineKind, pending: seq<string>): seq<string>
  {
    match k
    case ItemLine(t) => pending + [t]
    case BlankLine => pending
    case _ => []
  }

  /** The blocks the remaining lines produce, given the pending list items;
      the last list is flushed at the end. */
  function Group(kinds: seq<LineKind>, pending: seq<string>): seq<Block>
    decreases |kinds|
  {
    if kinds == [] then Flush(pending)
    else Emit(kinds[0], pending) + Group(kinds[1..], Carry(kinds[0], pending))
  }

  lemma GroupAt(kinds: seq<LineKind>, i: nat, pending: seq<string>)
    requires i < |kinds|
    ensures Group(kinds[i..], pending) == Emit(kinds[i], pending) + Group(kinds[i + 1..], Carry(kinds[i], pending))
  {
    assert kinds[i..][0] == kinds[i] && kinds[i..][1..] == kinds[i + 1..];
  }

  /** flushList as a step of the loop. */
  method FlushList(elements: seq<Block>, listItems: seq<string>)
      returns (elements': seq<Block>, listItems': seq<string>)
    ensures elements' == elements + Flush(listItems) && listItems' == []
  {
    elements' := elements;
    if |listItems| > 0 {
      elements' := elements' + [BulletList(listItems)];
    }
    listItems' := [];
  }

  /** MarkdownRenderer: nothing for empty content; otherwise the blocks of
      the lines of `content`. */
  method Render(content: string) returns (r: Option<seq<Block>>)
    ensures content == "" ==> r.None?
    ensures content != "" ==> r == Some(Group(Kinds(Split(content, "\n")), []))
  {
    if content == "" {
      return None;
    }
    var lines := Split(content, "\n");
    ghost var kinds := Kinds(lines);
    var elements: seq<Block> := [];
    var listItems: seq<string> := [];
    for i := 0 to |lines|
      invariant elements + Group(kinds[i..], listItems) == Group(kinds, [])
    {
      var kind := Classify(lines[i]);
      ghost var before, pending := elements, listItems;
      GroupAt(kinds, i, pending);
      match kind {
        case HeadingLine(t) =>
          elements, listItems := FlushList(elements, listItems);
          elements := elements + [Heading(t)];
        case ItemLine(t) =>
          listItems := listItems + [t];
        case TextLine(t) =>
          elements, listItems := FlushList(elements, listItems);
          elements := elements + [Paragraph(t)];
        case BlankLine =>
      }
      StepAppends(before, kind, pending, elements, listItems);
      AppendAssoc(before, Emit(kind, pending), Group(kinds[i + 1..], listItems));
    }
    assert kinds[|lines|..] == [];
    elements, listItems := FlushList(elements, listItems);
    assert kinds[0..] == kinds;
    return Some(elements);
  }

  /** One pass of the loop body appends what the line emits and leaves
      what it carries pending. */
  lemma StepAppends(before: seq<Block>, k: LineKind, pending: seq<string>, elements: seq<Block>, listItems: seq<string>)
    requires match k
      case HeadingLine(t) => elements == before + Flush(pending) + [Heading(t)] && listItems == []
      case TextLine(t) => elements == before + Flush(pending) + [Paragraph(t)] && listItems == []
      case ItemLine(t) => elements == before && listItems == pending + [t]
      case BlankLine => elements == before && listItems == pending
    ensures elements == before + Emit(k, pending) && listItems == Carry(k, pending)
  {
    match k
    case HeadingLine(t) => AppendAssoc(before, Flush(pending), [Heading(t)]);
    case TextLine(t) => AppendAssoc(before, Flush(pending), [Paragraph(t)]);
    case _ => assert before + [] == before;
  }

  // ---------------------------------------------------------------------
  // Properties of the grouping
  // ---------------------------------------------------------------------

  /** The items of all lists, in order. */
  function AllItems(blocks: seq<Block>): seq<string>
  {
    if blocks == [] then []
    else (if blocks[0].BulletList? then blocks[0].items else []) + AllItems(blocks[1..])
  }

  /** The text of an item line. */
  function ItemText(k: LineKind): seq<string>
  {
    if k.ItemLine? then [k.text] else []
  }

  /** The texts of the item lines, in order. */
  function ItemTexts(kinds: seq<LineKind>): seq<string>
  {
    if kinds == [] then [] else ItemText(kinds[0]) + ItemTexts(kinds[1..])
  }

  /** A heading or paragraph line as a block. */
  function StandaloneOf(k: LineKind): seq<Block>
  {
    match k
    case HeadingLine(t) => [Heading(t)]
    case TextLine(t) => [Paragraph(t)]
    case _ => []
  }

  /** The heading and paragraph lines as blocks, in order. */
  function Standalone(kinds: seq<LineKind>): seq<Block>
  {
    if kinds == [] then [] else StandaloneOf(kinds[0]) + Standalone(kinds[1..])
  }

  function IsStandalone(b: Block): bool { !b.BulletList? }

  lemma {:induction false} AllItemsConcat(a: seq<Block>, b: seq<Block>)
    ensures AllItems(a + b) == AllItems(a) + AllItems(b)
  {
    if a == [] {
      assert a + b == b;
    } else {
      assert (a + b)[0] == a[0] && (a + b)[1..] == a[1..] + b;
      AllItemsConcat(a[1..], b);
    }
  }

  lemma FlushItems(pending: seq<string>)
    ensures AllItems(Flush(pending)) == pending
    ensures Filter(Flush(pending), IsStandalone) == []
  {
    if |pending| > 0 {
      assert Flush(pending)[1..] == [];
    }
  }

  /** One line keeps the pending items and its own item text, in order:
      flushed into a list or still pending. */
  lemma EmitItems(k: LineKind, pending: seq<string>)
    ensures AllItems(Emit(k, pending)) + Carry(k, pending) == pending + ItemText(k)
  {
    FlushItems(pending);
    match k
    case HeadingLine(t) =>
      AllItemsConcat(Flush(pending), [Heading(t)]);
      assert [Heading(t)][1..] == [];
    case TextLine(t) =>
      AllItemsConcat(Flush(pending), [Paragraph(t)]);
      assert [Paragraph(t)][1..] == [];
    case ItemLine(t) =>
    case BlankLine =>
  }

  /** One line emits its own heading or paragraph and nothing else outside
      a list. */
  lemma EmitStandalone(k: LineKind, pending: seq<string>)
    ensures Filter(Emit(k, pending), IsStandalone) == StandaloneOf(k)
  {
    FlushItems(pending);
    match k
    case HeadingLine(t) =>
      FilterConcat(Flush(pending), [Heading(t)], IsStandalone);
      assert [Heading(t)][1..] == [];
    case TextLine(t) =>
      FilterConcat(Flush(pending), [Paragraph(t)], IsStandalone);
      assert [Paragraph(t)][1..] == [];
    case ItemLine(t) =>
    case BlankLine =>
  }

  /** Every item line shows up exactly once, as an item of some list, in
      the order of the lines (the pending items first). */
  lemma {:induction false} GroupItems(kinds: seq<LineKind>, pending: seq<string>)
    ensures AllItems(Group(kinds, pending)) == pending + ItemTexts(kinds)
    decreases |kinds|
  {
    if kinds == [] {
      FlushItems(pending);
    } else {
      var k, rest := kinds[0], kinds[1..];
      var carried := Carry(k, pending);
      GroupItems(rest, carried);
      AllItemsConcat(Emit(k, pending), Group(rest, carried));
      EmitItems(k, pending);
      AppendAssoc(AllItems(Emit(k, pending)), carried, ItemTexts(rest));
      AppendAssoc(pending, ItemText(k), ItemTexts(rest));
    }
  }

  /** Headings and paragraphs come out one per line, in the order of the
      lines. */
  lemma {:induction false} GroupStandalone(kinds: seq<LineKind>, pending: seq<string>)
    ensures Filter(Group(kinds, pending), IsStandalone) == Standalone(kinds)
    decreases |kinds|
  {
    if kinds == [] {
      FlushItems(pending);
    } else {
      var k, rest := kinds[0], kinds[1..];
      GroupStandalone(rest, Carry(k, pending));
      FilterConcat(Emit(k, pending), Group(rest, Carry(k, pending)), IsStandalone);
      EmitStandalone(k, pending);
    }
  }

  predicate NoEmptyLists(blocks: seq<Block>)
  {
    forall i :: 0 <= i < |blocks| && blocks[i].BulletList? ==> blocks[i].items != []
  }

  predicate NoAdjacentLists(blocks: seq<Block>)
  {
    forall i :: 0 <= i < |blocks| - 1 ==> !(blocks[i].BulletList? && blocks[i + 1].BulletList?)
  }

  lemma AroundStandalone(a: seq<Block>, x: Block, b: seq<Block>)
    requires |a| <= 1 && !x.BulletList? && NoAdjacentLists(b)
    ensures NoAdjacentLists(a + [x] + b)
  {
    var c := a + [x] + b;
    forall i | 0 <= i < |c| - 1 ensures !(c[i].BulletList? && c[i + 1].BulletList?) {
      if i >= |a| + 1 {
        assert c[i] == b[i - |a| - 1] && c[i + 1] == b[i - |a|];
      }
    }
  }

  lemma FlushedThen(pending: seq<string>, x: Block, b: seq<Block>)
    requires !x.BulletList? && NoEmptyLists(b) && NoAdjacentLists(b)
    ensures NoEmptyLists(Flush(pending) + [x] + b) && NoAdjacentLists(Flush(pending) + [x] + b)
  {
    AroundStandalone(Flush(pending), x, b);
    var c := Flush(pending) + [x] + b;
    var n := |Flush(pending)| + 1;
    forall i | 0 <= i < |c| && c[i].BulletList? ensures c[i].items != [] {
      if i >= n {
        assert c[i] == b[i - n];
      }
    }
  }

  /** No list is empty, and no two lists follow each other: a list ends
      only at a heading or paragraph, or at the end. */
  lemma {:induction false} GroupShape(kinds: seq<LineKind>, pending: seq<string>)
    ensures NoEmptyLists(Group(kinds, pending))
    ensures NoAdjacentLists(Group(kinds, pending))
    decreases |kinds|
  {
    if kinds != [] {
      var k, rest := kinds[0], kinds[1..];
      GroupShape(rest, Carry(k, pending));
      match k
      case HeadingLine(t) =>
        FlushedThen(pending, Heading(t), Group(rest, []));
      case TextLine(t) =>
        FlushedThen(pending, Paragraph(t), Group(rest, []));
      case ItemLine(t) =>
        assert [] + Group(rest, pending + [t]) == Group(rest, pending + [t]);
      case BlankLine =>
        assert [] + Group(rest, pending) == Group(rest, pending);
    }
  }

  /** Blank lines neither flush the pending list nor emit anything. */
  lemma {:induction false} BlankLinesIgnored(gap: seq<LineKind>, rest: seq<LineKind>, pending: seq<string>)
    requires forall i :: 0 <= i < |gap| ==> gap[i] == BlankLine
    ensures Group(gap + rest, pending) == Group(rest, pending)
    decreases |gap|
  {
    if gap != [] {
      assert gap[0] == BlankLine;
      assert forall i :: 0 <= i < |gap[1..]| ==> gap[1..][i] == gap[i + 1];
      assert (gap + rest)[0] == gap[0] && (gap + rest)[1..] == gap[1..] + rest;
      BlankLinesIgnored(gap[1..], rest, pending);
      assert [] + Group(gap[1..] + rest, pending) == Group(gap[1..] + rest, pending);
    } else {
      assert gap + rest == rest;
    }
  }

  /** Two item lines with only blank lines between them land in the same
      list. */
  lemma ItemsAcrossBlankLines(a: LineKind, gap: seq<LineKind>, b: LineKind, rest: seq<LineKind>, pending: seq<string>)
    requires a.ItemLine? && b.ItemLine?
    requires forall i :: 0 <= i < |gap| ==> gap[i] == BlankLine
    ensures Group([a] + gap + [b] + rest, pending) == Group(rest, pending + [a.text, b.text])
  {
    var ks := [a] + gap + [b] + rest;
    assert ks[0] == a && ks[1..] == gap + ([b] + rest);
    assert Group(ks, pending) == Group(gap + ([b] + rest), pending + [a.text]);
    BlankLinesIgnored(gap, [b] + rest, pending + [a.text]);
    assert ([b] + rest)[0] == b && ([b] + rest)[1..] == rest;
    assert Group([b] + rest, pending + [a.text]) == Group(rest, pending + [a.text] + [b.text]);
    assert pending + [a.text] + [b.text] == pending + [a.text, b.text];
  }

  /** A marker with nothing after it is trimmed to a bare marker and so
      becomes a paragraph. */
  lemma BareMarkers()
    ensures Classify("### ") == TextLine("###")
    ensures Classify("* ") == TextLine("*")
  {
    assert TrimStart("### ") == "### ";
    assert "### "[..3] == "###";
    assert TrimEnd("### ") == "###";
    assert TrimStart("* ") == "* ";
    assert "* "[..1] == "*";
    assert TrimEnd("* ") == "*";
  }
}
