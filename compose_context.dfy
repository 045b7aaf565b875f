/**
 * The body block model: turns the compose body (a tree of text nodes and
 * elements) into an ordered list of typed blocks with an indent depth, trims
 * blank blocks at both ends, and derives the line-preserving raw text and the
 * whitespace-collapsed plain text from the blocks.
 *
 * The DOM is modelled as a value of type Node. `innerText` and `textContent`
 * of an element are not computed from the tree: they are supplied by a
 * TextView, two uninterpreted functions, as a browser would supply them.
 */
module ComposeContext {
  import opened Wrappers
  import opened JsText

  // ---------------------------------------------------------------------------
  // Text normalisers
  // ---------------------------------------------------------------------------

  /** Every whitespace character is a plain space and no two whitespace characters are adjacent. */
  ghost predicate Collapsed(s: string) {
    && (forall i :: 0 <= i < |s| && IsWhitespace(s[i]) ==> s[i] == ' ')
    && (forall i :: 0 <= i < |s| - 1 ==> !(IsWhitespace(s[i]) && IsWhitespace(s[i + 1])))
  }

  /** `replace(/\s+/g, " ")`: each maximal run of whitespace becomes one space. */
  function CollapseWhitespace(s: string): (r: string)
    ensures |r| <= |s|
    ensures Collapsed(r)
    ensures |s| > 0 && !IsWhitespace(s[0]) ==> |r| > 0 && r[0] == s[0]
    ensures |s| > 0 && IsWhitespace(s[0]) ==> |r| > 0 && r[0] == ' '
    decreases |s|
  {
    if |s| == 0 then ""
    else if IsWhitespace(s[0]) then " " + CollapseWhitespace(TrimStart(s))
    else [s[0]] + CollapseWhitespace(s[1..])
  }

  lemma {:induction false} CollapseOfCollapsed(s: string)
    requires Collapsed(s)
    ensures CollapseWhitespace(s) == s
    decreases |s|
  {
    if |s| > 0 {
      assert Collapsed(s[1..]);
      if IsWhitespace(s[0]) {
        assert |s| == 1 || !IsWhitespace(s[1]);
        assert TrimStart(s) == s[1..];
      }
      CollapseOfCollapsed(s[1..]);
      assert [s[0]] + s[1..] == s;
    }
  }

  lemma CollapsedSlice(s: string, a: nat, b: nat)
    requires Collapsed(s) && a <= b <= |s|
    ensures Collapsed(s[a..b])
  {
    var t := s[a..b];
    forall i | 0 <= i < |t| - 1 ensures !(IsWhitespace(t[i]) && IsWhitespace(t[i + 1])) {
      assert t[i] == s[a + i] && t[i + 1] == s[a + i + 1];
    }
  }

  /** `cleanText`: whitespace runs collapsed to one space and both ends trimmed; `null` reads as "". */
  function CleanText(text: Option<string>): string {
    Trim(CollapseWhitespace(text.GetOr("")))
  }

  /** The cleaned text has no whitespace at either end, only single plain spaces inside. */
  lemma CleanTextShape(text: Option<string>)
    ensures var r := CleanText(text); r == [] || (!IsWhitespace(r[0]) && !IsWhitespace(r[|r| - 1]))
    ensures Collapsed(CleanText(text))
  {
    var c := CollapseWhitespace(text.GetOr(""));
    var a, b := TrimIsSlice(c);
    CollapsedSlice(c, a, b);
  }

  lemma CleanTextIdempotent(text: Option<string>)
    ensures CleanText(Some(CleanText(text))) == CleanText(text)
  {
    var r := CleanText(text);
    CleanTextShape(text);
    CollapseOfCollapsed(r);
    TrimOfTrimmed(r);
  }

  /** `replace(/\r\n/g, "\n")`, scanning left to right. */
  function ReplaceCrLf(s: string): (r: string)
    ensures |r| <= |s|
  {
    if |s| == 0 then ""
    else if |s| >= 2 && s[0] == '\r' && s[1] == '\n' then "\n" + ReplaceCrLf(s[2..])
    else [s[0]] + ReplaceCrLf(s[1..])
  }

  /** `replace(/\u00a0/g, " ")`. */
  function ReplaceNbsp(s: string): seq<char> {
    seq(|s|, i requires 0 <= i < |s| => if s[i] == '\U{00A0}' then ' ' else s[i])
  }

  /** `cleanRawText`: CRLF becomes LF and no-break spaces become spaces; `null` reads as "". */
  function CleanRawText(text: Option<string>): string {
    ReplaceNbsp(ReplaceCrLf(text.GetOr("")))
  }

  /** A string without carriage returns is left as it is. */
  lemma {:induction false} ReplaceCrLfWithoutCr(s: string)
    requires '\r' !in s
    ensures ReplaceCrLf(s) == s
  {
    if |s| > 0 {
      ReplaceCrLfWithoutCr(s[1..]);
      assert [s[0]] + s[1..] == s;
    }
  }

  /**
   * The raw text holds no no-break space and is never longer than the input;
   * a text with no carriage return and no no-break space is unchanged.
   */
  lemma CleanRawTextShape(text: Option<string>)
    ensures '\U{00A0}' !in CleanRawText(text)
    ensures |CleanRawText(text)| <= |text.GetOr("")|
    ensures '\r' !in text.GetOr("") && '\U{00A0}' !in text.GetOr("") ==> CleanRawText(text) == text.GetOr("")
  {
    var r := CleanRawText(text);
    assert forall i :: 0 <= i < |r| ==> r[i] != '\U{00A0}';
    if '\r' !in text.GetOr("") {
      ReplaceCrLfWithoutCr(text.GetOr(""));
    }
  }

  predicate IsSpaceOrTab(c: char) { c == ' ' || c == '\t' }

  /** `replace(/[ \t]+$/g, "")` on one line. */
  function StripTrailingBlanks(line: string): string {
    if |line| > 0 && IsSpaceOrTab(line[|line| - 1]) then StripTrailingBlanks(line[..|line| - 1]) else line
  }

  /** Stripping keeps a prefix of the line that does not end in a space or tab, and drops only spaces and tabs. */
  lemma {:induction false} StripTrailingBlanksShape(line: string)
    ensures var r := StripTrailingBlanks(line); r <= line && (r == [] || !IsSpaceOrTab(r[|r| - 1]))
    ensures forall i :: |StripTrailingBlanks(line)| <= i < |line| ==> IsSpaceOrTab(line[i])
  {
    if |line| > 0 && IsSpaceOrTab(line[|line| - 1]) {
      StripTrailingBlanksShape(line[..|line| - 1]);
    }
  }

  function StripLines(lines: seq<string>): seq<string> {
    seq(|lines|, i requires 0 <= i < |lines| => StripTrailingBlanks(lines[i]))
  }

  /** No line of `s` ends in a space or tab: no such character stands before a line break or at the end. */
  ghost predicate LinesEndClean(s: string) {
    && (forall k :: 0 < k < |s| && s[k] == '\n' ==> !IsSpaceOrTab(s[k - 1]))
    && (|s| > 0 ==> !IsSpaceOrTab(s[|s| - 1]))
  }

  lemma {:induction false} JoinOfCleanLines(lines: seq<string>)
    requires forall l :: l in lines ==> '\n' !in l && (l == [] || !IsSpaceOrTab(l[|l| - 1]))
    ensures LinesEndClean(Join(lines, '\n'))
  {
    if |lines| > 1 {
      JoinOfCleanLines(lines[1..]);
      var head, tail := lines[0], Join(lines[1..], '\n');
      var j := head + ['\n'] + tail;
      assert Join(lines, '\n') == j;
      forall k | 0 < k < |j| && j[k] == '\n' ensures !IsSpaceOrTab(j[k - 1]) {
        if k > |head| + 1 {
          assert j[k] == tail[k - |head| - 1] && j[k - 1] == tail[k - |head| - 2];
        }
      }
    }
  }

  /** `normalizeBlockText`: clean the raw text, strip trailing spaces and tabs from every line, trim. */
  function NormalizeBlockText(text: Option<string>): string {
    Trim(Join(StripLines(Split(CleanRawText(text), '\n')), '\n'))
  }

  /** Stripping lines that hold no line break leaves lines with no line break and no trailing space or tab. */
  lemma StripLinesClean(lines: seq<string>)
    requires forall l :: l in lines ==> '\n' !in l
    ensures forall l :: l in StripLines(lines) ==> '\n' !in l && (l == [] || !IsSpaceOrTab(l[|l| - 1]))
  {
    var stripped := StripLines(lines);
    forall l | l in stripped ensures '\n' !in l && (l == [] || !IsSpaceOrTab(l[|l| - 1])) {
      var i :| 0 <= i < |stripped| && stripped[i] == l;
      assert lines[i] in lines;
      StripTrailingBlanksShape(lines[i]);
    }
  }

  /** Trimming keeps every line break preceded by what preceded it before. */
  lemma TrimKeepsLineEnds(s: string)
    requires LinesEndClean(s)
    ensures forall k :: 0 < k < |Trim(s)| && Trim(s)[k] == '\n' ==> !IsSpaceOrTab(Trim(s)[k - 1])
  {
    var r := Trim(s);
    var a, b := TrimIsSlice(s);
    forall k | 0 < k < |r| && r[k] == '\n' ensures !IsSpaceOrTab(r[k - 1]) {
      assert r[k] == s[a + k] && r[k - 1] == s[a + k - 1];
    }
  }

  /** The normalised text has no whitespace at either end and no line of it ends in a space or tab. */
  lemma NormalizeBlockTextShape(text: Option<string>)
    ensures var r := NormalizeBlockText(text); r == [] || (!IsWhitespace(r[0]) && !IsWhitespace(r[|r| - 1]))
    ensures var r := NormalizeBlockText(text); forall k :: 0 < k < |r| && r[k] == '\n' ==> !IsSpaceOrTab(r[k - 1])
  {
    var lines := Split(CleanRawText(text), '\n');
    SplitHasNoSeparator(CleanRawText(text), '\n');
    StripLinesClean(lines);
    JoinOfCleanLines(StripLines(lines));
    TrimKeepsLineEnds(Join(StripLines(lines), '\n'));
  }

  // ---------------------------------------------------------------------------
  // Blocks
  // ---------------------------------------------------------------------------

  datatype BlockKind = Paragraph | BulletItem | NumberItem | Quote | Blank

  datatype Block = Block(kind: BlockKind, text: string, indentLevel: nat, sourceTag: string)

  /** The blocks that `pushBlock` leaves after appending to `blocks`. */
  function Pushed(blocks: seq<Block>, kind: BlockKind, text: string, indentLevel: nat, sourceTag: string): seq<Block> {
    if kind != Blank && |text| == 0 then blocks
    else if kind == Blank && |blocks| > 0 && blocks[|blocks| - 1].kind == Blank then
      blocks + [Block(kind, "", indentLevel, sourceTag)]
    else
      blocks + [Block(kind, text, indentLevel, sourceTag)]
  }

  /**
   * `pushBlock` drops a non-blank block whose text is empty and otherwise
   * appends exactly one block of the given kind, depth and tag: a blank
   * after a blank is still appended (the list is not collapsed), only with
   * its text forced to "".
   */
  lemma PushedShape(blocks: seq<Block>, kind: BlockKind, text: string, indentLevel: nat, sourceTag: string)
    ensures var r := Pushed(blocks, kind, text, indentLevel, sourceTag);
      if kind != Blank && text == "" then r == blocks
      else
        && |r| == |blocks| + 1
        && r[..|blocks|] == blocks
        && r[|blocks|].kind == kind && r[|blocks|].indentLevel == indentLevel && r[|blocks|].sourceTag == sourceTag
        && r[|blocks|].text == (if kind == Blank && |blocks| > 0 && blocks[|blocks| - 1].kind == Blank then "" else text)
  {
  }

  /** What one `pushBlock` call contributes when the text of a blank block is "" (as at every call site). */
  function Emit(kind: BlockKind, text: string, indentLevel: nat, sourceTag: string): seq<Block> {
    if kind != Blank && |text| == 0 then [] else [Block(kind, text, indentLevel, sourceTag)]
  }

  lemma PushedIsEmit(blocks: seq<Block>, kind: BlockKind, text: string, indentLevel: nat, sourceTag: string)
    requires kind == Blank ==> text == ""
    ensures Pushed(blocks, kind, text, indentLevel, sourceTag) == blocks + Emit(kind, text, indentLevel, sourceTag)
  {
  }

  /** The list builder that the recursive walk appends to. */
  class BlockList {
    var blocks: seq<Block>

    constructor ()
      ensures blocks == []
    {
      blocks := [];
    }

    /** `pushBlock`: a non-blank block with empty text is dropped; anything else is appended. */
    method PushBlock(kind: BlockKind, text: string, indentLevel: nat, sourceTag: string)
      modifies this
      ensures blocks == Pushed(old(blocks), kind, text, indentLevel, sourceTag)
    {
      if kind != Blank && |text| == 0 {
        return;
      }
      if kind == Blank && |blocks| > 0 && blocks[|blocks| - 1].kind == Blank {
        blocks := blocks + [Block(kind, "", indentLevel, sourceTag)];
        return;
      }
      blocks := blocks + [Block(kind, text, indentLevel, sourceTag)];
    }

    method Append(b: Block)
      modifies this
      ensures blocks == old(blocks) + [b]
    {
      blocks := blocks + [b];
    }
  }

  // ---------------------------------------------------------------------------
  // The tree walk
  // ---------------------------------------------------------------------------

  /** A node of the body: a text node, an HTML element (tag in lower case), or anything else (comments). */
  datatype Node = TextNode(data: string) | Element(tag: string, children: seq<Node>) | OtherNode

  /** `innerText` and `textContent` as the browser reports them. */
  datatype TextView = TextView(innerText: Node -> string, textContent: Node -> string)

  const BLOCK_TAGS: set<string> :=
    {"article", "blockquote", "div", "h1", "h2", "h3", "h4", "h5", "h6", "li", "ol", "p", "pre", "section", "ul"}

  function Size(n: Node): (r: nat)
    ensures r >= 1
  {
    match n
    case Element(_, cs) => 1 + SizeSeq(cs)
    case _ => 1
  }

  function SizeSeq(cs: seq<Node>): nat {
    if cs == [] then 0 else SizeSeq(cs[..|cs| - 1]) + Size(cs[|cs| - 1])
  }

  lemma {:induction false} SizeOfChild(cs: seq<Node>, i: nat)
    requires i < |cs|
    ensures Size(cs[i]) <= SizeSeq(cs)
  {
    if i < |cs| - 1 {
      SizeOfChild(cs[..|cs| - 1], i);
    }
  }

  function ChildrenOf(n: Node): seq<Node> {
    if n.Element? then n.children else []
  }

  /** `innerText || textContent`. */
  function TextOf(n: Node, view: TextView): string {
    var t := view.innerText(n);
    if t != "" then t else view.textContent(n)
  }

  function ListType(tag: string): BlockKind {
    if tag == "ol" then NumberItem else BulletItem
  }

  function TextKind(inQuote: bool): BlockKind {
    if inQuote then Quote else Paragraph
  }

  predicate IsListElement(n: Node) {
    n.Element? && (n.tag == "ul" || n.tag == "ol")
  }

  predicate IsStructural(n: Node) {
    n.Element? && (n.tag in BLOCK_TAGS || n.tag == "br")
  }

  /** The copy of a list item with its nested `ul`/`ol` children removed. */
  function RemoveSubLists(cs: seq<Node>): seq<Node> {
    if cs == [] then []
    else RemoveSubLists(cs[..|cs| - 1]) + (if IsListElement(cs[|cs| - 1]) then [] else [cs[|cs| - 1]])
  }

  function ItemClone(item: Node): Node {
    match item
    case Element(tag, cs) => Element(tag, RemoveSubLists(cs))
    case _ => item
  }

  /** The blocks `parseNode` appends for one node. */
  function NodeBlocks(n: Node, parentTag: string, indent: nat, inQuote: bool, view: TextView): seq<Block>
    decreases Size(n), 2
  {
    match n
    case OtherNode => []
    case TextNode(data) =>
      var t := NormalizeBlockText(Some(data));
      if |t| > 0 then Emit(TextKind(inQuote), t, indent, "#text") else []
    case Element(_, _) => ElementBlocks(n, parentTag, indent, inQuote, view)
  }

  /** `parseNode` on an element: line breaks, blockquotes, lists, list items, block elements, anything else. */
  function ElementBlocks(n: Node, parentTag: string, indent: nat, inQuote: bool, view: TextView): seq<Block>
    requires n.Element?
    decreases Size(n), 1
  {
    if n.tag == "br" then Emit(Blank, "", indent, "br")
    else if n.tag == "blockquote" then BlockquoteBlocks(n, indent, view)
    else if n.tag == "ul" || n.tag == "ol" then ListBlocks(n, indent, inQuote, view)
    else if n.tag == "li" then
      Emit(if inQuote then Quote else ListType(parentTag), NormalizeBlockText(Some(TextOf(n, view))), indent, "li")
    else if n.tag in BLOCK_TAGS then BlockElementBlocks(n, indent, inQuote, view)
    else
      var t := NormalizeBlockText(Some(view.textContent(n)));
      if |t| > 0 then Emit(TextKind(inQuote), t, indent, n.tag) else []
  }

  /** A blockquote: its children one level deeper as quotes; when they give nothing, its whole text as one quote. */
  function BlockquoteBlocks(n: Node, indent: nat, view: TextView): seq<Block>
    requires n.Element?
    decreases Size(n), 0
  {
    var inner := ChildrenBlocks(n.children, n.tag, indent + 1, true, view);
    if inner != [] then inner
    else
      var q := NormalizeBlockText(Some(TextOf(n, view)));
      if |q| > 0 then Emit(Quote, q, indent + 1, "blockquote") else []
  }

  /** Some element child is a block element or a line break. */
  predicate HasStructuralChildren(cs: seq<Node>) {
    exists i :: 0 <= i < |cs| && IsStructural(cs[i])
  }

  /**
   * Any other block element: walk its children when one of them is
   * structural, else its text as one block, else a blank for an empty
   * `div` or `p`.
   */
  function BlockElementBlocks(n: Node, indent: nat, inQuote: bool, view: TextView): seq<Block>
    requires n.Element?
    decreases Size(n), 0
  {
    if HasStructuralChildren(n.children) then ChildrenBlocks(n.children, n.tag, indent, inQuote, view)
    else
      var t := NormalizeBlockText(Some(TextOf(n, view)));
      if |t| > 0 then Emit(TextKind(inQuote), t, indent, n.tag)
      else if n.tag == "div" || n.tag == "p" then Emit(Blank, "", indent, n.tag)
      else []
  }

  /** The blocks of the child nodes, in document order. */
  function ChildrenBlocks(cs: seq<Node>, parentTag: string, indent: nat, inQuote: bool, view: TextView): seq<Block>
    decreases SizeSeq(cs), 3
  {
    if cs == [] then [] else
    ChildrenBlocks(cs[..|cs| - 1], parentTag, indent, inQuote, view)
    + NodeBlocks(cs[|cs| - 1], parentTag, indent, inQuote, view)
  }

  /** The blocks `parseListElement` appends for a `ul` or `ol` element. */
  function ListBlocks(list: Node, indent: nat, inQuote: bool, view: TextView): seq<Block>
    requires list.Element?
    decreases Size(list), 0
  {
    ItemsBlocks(list.children, list.tag, indent, inQuote, view)
  }

  function ItemsBlocks(cs: seq<Node>, listTag: string, indent: nat, inQuote: bool, view: TextView): seq<Block>
    decreases SizeSeq(cs), 3
  {
    if cs == [] then [] else
    ItemsBlocks(cs[..|cs| - 1], listTag, indent, inQuote, view)
    + ItemBlocks(cs[|cs| - 1], listTag, indent, inQuote, view)
  }

  /** One `li` child of a list: its own text (nested lists removed), then its nested lists one level deeper. */
  function ItemBlocks(item: Node, listTag: string, indent: nat, inQuote: bool, view: TextView): seq<Block>
    decreases Size(item), 2
  {
    if item.Element? && item.tag == "li" then
      var t := NormalizeBlockText(Some(TextOf(ItemClone(item), view)));
      Emit(if inQuote then Quote else ListType(listTag), t, indent, "li")
        + SubListsBlocks(item.children, indent + 1, inQuote, view)
    else []
  }

  function SubListsBlocks(cs: seq<Node>, indent: nat, inQuote: bool, view: TextView): seq<Block>
    decreases SizeSeq(cs), 3
  {
    if cs == [] then []
    else
      var last := cs[|cs| - 1];
      SubListsBlocks(cs[..|cs| - 1], indent, inQuote, view)
        + (if IsListElement(last) then ListBlocks(last, indent, inQuote, view) else [])
  }

  // ---------------------------------------------------------------------------
  // Properties of the walk
  // ---------------------------------------------------------------------------

  /** Every block is at least `indent` deep, and inside a quote every block is a quote or a blank. */
  ghost predicate Shaped(blocks: seq<Block>, indent: nat, inQuote: bool) {
    forall b :: b in blocks ==> b.indentLevel >= indent && (inQuote ==> b.kind == Quote || b.kind == Blank)
  }

  lemma {:induction false} NodeShaped(n: Node, parentTag: string, indent: nat, inQuote: bool, view: TextView)
    ensures Shaped(NodeBlocks(n, parentTag, indent, inQuote, view), indent, inQuote)
    ensures n.Element? && n.tag == "blockquote" ==> Shaped(NodeBlocks(n, parentTag, indent, inQuote, view), indent + 1, true)
    decreases Size(n), 2
  {
    if n.Element? {
      if n.tag == "blockquote" {
        assert NodeBlocks(n, parentTag, indent, inQuote, view) == BlockquoteBlocks(n, indent, view);
        BlockquoteShaped(n, indent, view);
      } else if n.tag == "ul" || n.tag == "ol" {
        ListShaped(n, indent, inQuote, view);
      } else if n.tag != "br" && n.tag != "li" && n.tag in BLOCK_TAGS {
        assert NodeBlocks(n, parentTag, indent, inQuote, view) == BlockElementBlocks(n, indent, inQuote, view);
        BlockElementShaped(n, indent, inQuote, view);
      }
    }
  }

  lemma {:induction false} BlockElementShaped(n: Node, indent: nat, inQuote: bool, view: TextView)
    requires n.Element?
    ensures Shaped(BlockElementBlocks(n, indent, inQuote, view), indent, inQuote)
    decreases Size(n), 1
  {
    if HasStructuralChildren(n.children) {
      ChildrenShaped(n.children, n.tag, indent, inQuote, view);
    }
  }

  lemma {:induction false} BlockquoteShaped(n: Node, indent: nat, view: TextView)
    requires n.Element?
    ensures Shaped(BlockquoteBlocks(n, indent, view), indent + 1, true)
    decreases Size(n), 1
  {
    ChildrenShaped(n.children, n.tag, indent + 1, true, view);
  }

  lemma {:induction false} ChildrenShaped(cs: seq<Node>, parentTag: string, indent: nat, inQuote: bool, view: TextView)
    ensures Shaped(ChildrenBlocks(cs, parentTag, indent, inQuote, view), indent, inQuote)
    decreases SizeSeq(cs), 3
  {
    if cs != [] {
      ChildrenShaped(cs[..|cs| - 1], parentTag, indent, inQuote, view);
      NodeShaped(cs[|cs| - 1], parentTag, indent, inQuote, view);
    }
  }

  lemma {:induction false} ListShaped(list: Node, indent: nat, inQuote: bool, view: TextView)
    requires list.Element?
    ensures Shaped(ListBlocks(list, indent, inQuote, view), indent, inQuote)
    decreases Size(list), 0
  {
    ItemsShaped(list.children, list.tag, indent, inQuote, view);
  }

  lemma {:induction false} ItemsShaped(cs: seq<Node>, listTag: string, indent: nat, inQuote: bool, view: TextView)
    ensures Shaped(ItemsBlocks(cs, listTag, indent, inQuote, view), indent, inQuote)
    decreases SizeSeq(cs), 3
  {
    if cs != [] {
      ItemsShaped(cs[..|cs| - 1], listTag, indent, inQuote, view);
      ItemShaped(cs[|cs| - 1], listTag, indent, inQuote, view);
    }
  }

  lemma {:induction false} ItemShaped(item: Node, listTag: string, indent: nat, inQuote: bool, view: TextView)
    ensures Shaped(ItemBlocks(item, listTag, indent, inQuote, view), indent, inQuote)
    decreases Size(item), 2
  {
    if item.Element? && item.tag == "li" {
      SubListsShaped(item.children, indent + 1, inQuote, view);
    }
  }

  lemma {:induction false} SubListsShaped(cs: seq<Node>, indent: nat, inQuote: bool, view: TextView)
    ensures Shaped(SubListsBlocks(cs, indent, inQuote, view), indent, inQuote)
    decreases SizeSeq(cs), 3
  {
    if cs != [] {
      SubListsShaped(cs[..|cs| - 1], indent, inQuote, view);
      var last := cs[|cs| - 1];
      if IsListElement(last) {
        ListShaped(last, indent, inQuote, view);
      }
    }
  }

  /**
   * Outside a quote, the blocks a list emits at its own depth are its items,
   * all of the list's kind: number items for `ol`, bullet items for `ul`;
   * everything from its nested lists is deeper.
   */
  lemma ListItemKinds(list: Node, indent: nat, view: TextView)
    requires list.Element?
    ensures forall b :: b in ListBlocks(list, indent, false, view) && b.indentLevel == indent ==>
      b.kind == ListType(list.tag) && b.sourceTag == "li"
  {
    ItemsKinds(list.children, list.tag, indent, view);
  }

  lemma {:induction false} ItemsKinds(cs: seq<Node>, listTag: string, indent: nat, view: TextView)
    ensures forall b :: b in ItemsBlocks(cs, listTag, indent, false, view) && b.indentLevel == indent ==>
      b.kind == ListType(listTag) && b.sourceTag == "li"
    decreases |cs|
  {
    if cs != [] {
      ItemsKinds(cs[..|cs| - 1], listTag, indent, view);
      var item := cs[|cs| - 1];
      if item.Element? && item.tag == "li" {
        SubListsShaped(item.children, indent + 1, false, view);
      }
    }
  }

  /** Everything inside a blockquote is a quote or a blank, and one level deeper than the blockquote. */
  lemma BlockquoteShape(n: Node, parentTag: string, indent: nat, inQuote: bool, view: TextView)
    requires n.Element? && n.tag == "blockquote"
    ensures forall b :: b in NodeBlocks(n, parentTag, indent, inQuote, view) ==>
      b.indentLevel >= indent + 1 && (b.kind == Quote || b.kind == Blank)
  {
    NodeShaped(n, parentTag, indent, inQuote, view);
  }

  lemma AppendAssoc(a: seq<Block>, b: seq<Block>, c: seq<Block>)
    ensures (a + b) + c == a + (b + c)
  {
  }

  lemma ChildrenSnoc(cs: seq<Node>, i: nat, parentTag: string, indent: nat, inQuote: bool, view: TextView)
    requires i < |cs|
    ensures ChildrenBlocks(cs[..i + 1], parentTag, indent, inQuote, view)
      == ChildrenBlocks(cs[..i], parentTag, indent, inQuote, view) + NodeBlocks(cs[i], parentTag, indent, inQuote, view)
  {
    assert cs[..i + 1][..i] == cs[..i];
  }

  lemma ItemsSnoc(cs: seq<Node>, i: nat, listTag: string, indent: nat, inQuote: bool, view: TextView)
    requires i < |cs|
    ensures ItemsBlocks(cs[..i + 1], listTag, indent, inQuote, view)
      == ItemsBlocks(cs[..i], listTag, indent, inQuote, view) + ItemBlocks(cs[i], listTag, indent, inQuote, view)
  {
    assert cs[..i + 1][..i] == cs[..i];
  }

  lemma SubListsSnoc(cs: seq<Node>, i: nat, indent: nat, inQuote: bool, view: TextView)
    requires i < |cs|
    ensures SubListsBlocks(cs[..i + 1], indent, inQuote, view)
      == SubListsBlocks(cs[..i], indent, inQuote, view) + (if IsListElement(cs[i]) then ListBlocks(cs[i], indent, inQuote, view) else [])
  {
    assert cs[..i + 1][..i] == cs[..i];
  }

  // ---------------------------------------------------------------------------
  // The walk as the source runs it: recursive methods appending to one list
  // ---------------------------------------------------------------------------

  method ParseNode(n: Node, parentTag: string, list: BlockList, indent: nat, inQuote: bool, view: TextView)
    modifies list
    ensures list.blocks == old(list.blocks) + NodeBlocks(n, parentTag, indent, inQuote, view)
    decreases Size(n), 2
  {
    match n {
      case OtherNode =>
      case TextNode(data) =>
        var t := NormalizeBlockText(Some(data));
        if |t| > 0 {
          list.PushBlock(TextKind(inQuote), t, indent, "#text");
        }
      case Element(_, _) =>
        ParseElement(n, parentTag, list, indent, inQuote, view);
    }
  }

  method ParseElement(n: Node, parentTag: string, list: BlockList, indent: nat, inQuote: bool, view: TextView)
    requires n.Element?
    modifies list
    ensures list.blocks == old(list.blocks) + ElementBlocks(n, parentTag, indent, inQuote, view)
    decreases Size(n), 1
  {
    var tag := n.tag;
    if tag == "br" {
      list.PushBlock(Blank, "", indent, "br");
    } else if tag == "blockquote" {
      ParseBlockquote(n, list, indent, view);
    } else if tag == "ul" || tag == "ol" {
      ParseListElement(n, list, indent, inQuote, view);
    } else if tag == "li" {
      var itemText := NormalizeBlockText(Some(TextOf(n, view)));
      list.PushBlock(if inQuote then Quote else ListType(parentTag), itemText, indent, "li");
    } else if tag in BLOCK_TAGS {
      ParseBlockElement(n, list, indent, inQuote, view);
    } else {
      var fallbackText := NormalizeBlockText(Some(view.textContent(n)));
      if |fallbackText| > 0 {
        list.PushBlock(TextKind(inQuote), fallbackText, indent, tag);
      }
    }
  }

  method ParseBlockquote(n: Node, list: BlockList, indent: nat, view: TextView)
    requires n.Element?
    modifies list
    ensures list.blocks == old(list.blocks) + BlockquoteBlocks(n, indent, view)
    decreases Size(n), 0
  {
    var beforeCount := |list.blocks|;
    ParseChildren(n.children, n.tag, list, indent + 1, true, view);
    if |list.blocks| == beforeCount {
      var quoteText := NormalizeBlockText(Some(TextOf(n, view)));
      if |quoteText| > 0 {
        list.PushBlock(Quote, quoteText, indent + 1, "blockquote");
      }
    }
  }

  method ParseBlockElement(n: Node, list: BlockList, indent: nat, inQuote: bool, view: TextView)
    requires n.Element?
    modifies list
    ensures list.blocks == old(list.blocks) + BlockElementBlocks(n, indent, inQuote, view)
    decreases Size(n), 0
  {
    if HasStructuralChildren(n.children) {
      ParseChildren(n.children, n.tag, list, indent, inQuote, view);
      return;
    }
    var text := NormalizeBlockText(Some(TextOf(n, view)));
    if |text| > 0 {
      list.PushBlock(TextKind(inQuote), text, indent, n.tag);
      return;
    }
    if n.tag == "div" || n.tag == "p" {
      list.PushBlock(Blank, "", indent, n.tag);
    }
  }

  /** The loop over `childNodes` shared by the body, the block elements and the blockquote. */
  method ParseChildren(cs: seq<Node>, parentTag: string, list: BlockList, indent: nat, inQuote: bool, view: TextView)
    modifies list
    ensures list.blocks == old(list.blocks) + ChildrenBlocks(cs, parentTag, indent, inQuote, view)
    decreases SizeSeq(cs), 3
  {
    for i := 0 to |cs|
      invariant list.blocks == old(list.blocks) + ChildrenBlocks(cs[..i], parentTag, indent, inQuote, view)
    {
      SizeOfChild(cs, i);
      ParseNode(cs[i], parentTag, list, indent, inQuote, view);
      ChildrenSnoc(cs, i, parentTag, indent, inQuote, view);
      AppendAssoc(old(list.blocks), ChildrenBlocks(cs[..i], parentTag, indent, inQuote, view), NodeBlocks(cs[i], parentTag, indent, inQuote, view));
    }
    assert cs[..|cs|] == cs;
  }

  method ParseListElement(listElement: Node, list: BlockList, indent: nat, inQuote: bool, view: TextView)
    requires listElement.Element?
    modifies list
    ensures list.blocks == old(list.blocks) + ListBlocks(listElement, indent, inQuote, view)
    decreases Size(listElement), 0
  {
    var listTag := listElement.tag;
    var cs := listElement.children;
    for i := 0 to |cs|
      invariant list.blocks == old(list.blocks) + ItemsBlocks(cs[..i], listTag, indent, inQuote, view)
    {
      SizeOfChild(cs, i);
      ParseListItem(cs[i], listTag, list, indent, inQuote, view);
      ItemsSnoc(cs, i, listTag, indent, inQuote, view);
      AppendAssoc(old(list.blocks), ItemsBlocks(cs[..i], listTag, indent, inQuote, view), ItemBlocks(cs[i], listTag, indent, inQuote, view));
    }
    assert cs[..|cs|] == cs;
  }

  /** One child of a list: skipped unless it is an `li`; else its own text, then its nested lists. */
  method ParseListItem(child: Node, listTag: string, list: BlockList, indent: nat, inQuote: bool, view: TextView)
    modifies list
    ensures list.blocks == old(list.blocks) + ItemBlocks(child, listTag, indent, inQuote, view)
    decreases Size(child), 2
  {
    if !(child.Element? && child.tag == "li") {
      return;
    }
    var itemText := NormalizeBlockText(Some(TextOf(ItemClone(child), view)));
    var kind := if inQuote then Quote else ListType(listTag);
    ghost var before := list.blocks;
    list.PushBlock(kind, itemText, indent, "li");
    assert list.blocks == before + Emit(kind, itemText, indent, "li");
    ParseSubLists(child.children, list, indent + 1, inQuote, view);
    AppendAssoc(before, Emit(kind, itemText, indent, "li"), SubListsBlocks(child.children, indent + 1, inQuote, view));
  }

  /** The nested `ul`/`ol` children of a list item, each parsed as a list. */
  method ParseSubLists(cs: seq<Node>, list: BlockList, indent: nat, inQuote: bool, view: TextView)
    modifies list
    ensures list.blocks == old(list.blocks) + SubListsBlocks(cs, indent, inQuote, view)
    decreases SizeSeq(cs), 3
  {
    for j := 0 to |cs|
      invariant list.blocks == old(list.blocks) + SubListsBlocks(cs[..j], indent, inQuote, view)
    {
      SubListsSnoc(cs, j, indent, inQuote, view);
      if IsListElement(cs[j]) {
        SizeOfChild(cs, j);
        ParseListElement(cs[j], list, indent, inQuote, view);
        AppendAssoc(old(list.blocks), SubListsBlocks(cs[..j], indent, inQuote, view), ListBlocks(cs[j], indent, inQuote, view));
      } else {
        assert SubListsBlocks(cs[..j], indent, inQuote, view) + [] == SubListsBlocks(cs[..j], indent, inQuote, view);
      }
    }
    assert cs[..|cs|] == cs;
  }

  // ---------------------------------------------------------------------------
  // Trimming and the body
  // ---------------------------------------------------------------------------

  /** The index of the first non-blank block, or the length when there is none. */
  function FirstNonBlank(blocks: seq<Block>): (r: nat)
    ensures r <= |blocks|
    ensures forall k :: 0 <= k < r ==> blocks[k].kind == Blank
    ensures r < |blocks| ==> blocks[r].kind != Blank
  {
    if |blocks| == 0 || blocks[0].kind != Blank then 0 else 1 + FirstNonBlank(blocks[1..])
  }

  /** One past the last non-blank block at or after `lo`, or `lo` when there is none. */
  function EndOfNonBlank(blocks: seq<Block>, lo: nat): (r: nat)
    requires lo <= |blocks|
    ensures lo <= r <= |blocks|
    ensures forall k :: r <= k < |blocks| ==> blocks[k].kind == Blank
    ensures r > lo ==> blocks[r - 1].kind != Blank
    decreases |blocks|
  {
    if |blocks| == lo || blocks[|blocks| - 1].kind != Blank then |blocks|
    else EndOfNonBlank(blocks[..|blocks| - 1], lo)
  }

  /**
   * `trimBoundaryBlankBlocks`: the contiguous run from the first to the last
   * non-blank block. It is empty exactly when every block is blank, and it
   * keeps every non-blank block.
   */
  function Trimmed(blocks: seq<Block>): (r: seq<Block>)
    ensures r == blocks[FirstNonBlank(blocks)..EndOfNonBlank(blocks, FirstNonBlank(blocks))]
    ensures r == [] || (r[0].kind != Blank && r[|r| - 1].kind != Blank)
    ensures r == [] <==> forall k :: 0 <= k < |blocks| ==> blocks[k].kind == Blank
    ensures forall k :: 0 <= k < |blocks| && blocks[k].kind != Blank ==>
      FirstNonBlank(blocks) <= k < EndOfNonBlank(blocks, FirstNonBlank(blocks))
  {
    var s := FirstNonBlank(blocks);
    blocks[s..EndOfNonBlank(blocks, s)]
  }

  lemma TrimmedIdempotent(blocks: seq<Block>)
    ensures Trimmed(Trimmed(blocks)) == Trimmed(blocks)
  {
    var r := Trimmed(blocks);
    if r != [] {
      assert FirstNonBlank(r) == 0;
      assert EndOfNonBlank(r, 0) == |r|;
    }
  }

  /** The two loops of `trimBoundaryBlankBlocks`. */
  method TrimBoundaryBlankBlocks(blocks: seq<Block>) returns (r: seq<Block>)
    ensures r == Trimmed(blocks)
  {
    var start := 0;
    var end := |blocks|;
    while start < end && blocks[start].kind == Blank
      invariant start <= end == |blocks|
      invariant forall k :: 0 <= k < start ==> blocks[k].kind == Blank
    {
      start := start + 1;
    }
    assert start == FirstNonBlank(blocks);
    while end > start && blocks[end - 1].kind == Blank
      invariant start <= end <= |blocks|
      invariant forall k :: end <= k < |blocks| ==> blocks[k].kind == Blank
    {
      end := end - 1;
    }
    r := blocks[start..end];
  }

  /** The blocks the walk gives for the body, before trimming. */
  function WalkBody(root: Node, view: TextView): seq<Block> {
    var walked := ChildrenBlocks(ChildrenOf(root), if root.Element? then root.tag else "", 0, false, view);
    if walked != [] then walked
    else
      var t := NormalizeBlockText(Some(TextOf(root, view)));
      if |t| > 0 then [Block(Paragraph, t, 0, "body")] else []
  }

  /** `parseBodyBlocks`: no body gives no blocks. */
  function BodyBlocks(body: Option<Node>, view: TextView): (r: seq<Block>)
    ensures body.None? ==> r == []
    ensures r == [] || (r[0].kind != Blank && r[|r| - 1].kind != Blank)
  {
    match body
    case None => []
    case Some(root) => Trimmed(WalkBody(root, view))
  }

  /** When the walk finds nothing but the body has text, the result is that text as one top-level paragraph. */
  lemma BodyFallbackParagraph(root: Node, view: TextView)
    requires ChildrenBlocks(ChildrenOf(root), if root.Element? then root.tag else "", 0, false, view) == []
    requires NormalizeBlockText(Some(TextOf(root, view))) != ""
    ensures BodyBlocks(Some(root), view) == [Block(Paragraph, NormalizeBlockText(Some(TextOf(root, view))), 0, "body")]
  {
    var b := [Block(Paragraph, NormalizeBlockText(Some(TextOf(root, view))), 0, "body")];
    assert FirstNonBlank(b) == 0;
    assert EndOfNonBlank(b, 0) == 1;
  }

  method ParseBodyBlocks(body: Option<Node>, view: TextView) returns (blocks: seq<Block>)
    ensures blocks == BodyBlocks(body, view)
  {
    if body.None? {
      return [];
    }
    var root := body.value;
    var list := new BlockList();
    ParseChildren(ChildrenOf(root), if root.Element? then root.tag else "", list, 0, false, view);
    assert list.blocks == ChildrenBlocks(ChildrenOf(root), if root.Element? then root.tag else "", 0, false, view);
    if |list.blocks| == 0 {
      var t := NormalizeBlockText(Some(TextOf(root, view)));
      if |t| > 0 {
        list.Append(Block(Paragraph, t, 0, "body"));
      }
    }
    assert list.blocks == WalkBody(root, view);
    blocks := TrimBoundaryBlankBlocks(list.blocks);
  }

  // ---------------------------------------------------------------------------
  // The compose snapshot
  // ---------------------------------------------------------------------------

  datatype ComposeContext = ComposeContext(
    toCount: nat,
    hasAttachment: bool,
    subject: string,
    bodyText: string,
    bodyRaw: string,
    bodyBlocks: seq<Block>)

  /** The line a block contributes to the raw text: blanks give an empty line. */
  function LineOf(b: Block): string {
    if b.kind == Blank then "" else b.text
  }

  function Lines(blocks: seq<Block>): (r: seq<string>)
    ensures |r| == |blocks|
    ensures forall i :: 0 <= i < |blocks| ==> r[i] == LineOf(blocks[i])
  {
    seq(|blocks|, i requires 0 <= i < |blocks| => LineOf(blocks[i]))
  }

  /** `bodyRaw`: the block lines joined with "\n", or the cleaned `innerText` of the body when there are no blocks. */
  function BodyRaw(blocks: seq<Block>, body: Option<Node>, view: TextView): string {
    if |blocks| > 0 then Join(Lines(blocks), '\n')
    else CleanRawText(match body case None => None case Some(root) => Some(view.innerText(root)))
  }

  /**
   * With blocks whose texts hold no line break, the raw text has exactly one
   * line per block: for a blank block the empty line.
   */
  lemma BodyRawLines(blocks: seq<Block>, body: Option<Node>, view: TextView)
    requires |blocks| > 0
    requires forall b :: b in blocks ==> '\n' !in b.text
    ensures Split(BodyRaw(blocks, body, view), '\n') == Lines(blocks)
    ensures |Split(BodyRaw(blocks, body, view), '\n')| == |blocks|
  {
    var ls := Lines(blocks);
    forall l | l in ls ensures '\n' !in l {
      var i :| 0 <= i < |ls| && ls[i] == l;
      assert blocks[i] in blocks;
    }
    SplitJoin(ls, '\n');
  }

  /** What `buildComposeContext` derives from the body; recipients, attachment and subject come from outside. */
  method BuildComposeContext(toCount: nat, hasAttachment: bool, subject: string, body: Option<Node>, view: TextView)
    returns (ctx: ComposeContext)
    ensures ctx.bodyBlocks == BodyBlocks(body, view)
    ensures ctx.bodyRaw == BodyRaw(ctx.bodyBlocks, body, view)
    ensures ctx.bodyText == CleanText(Some(ctx.bodyRaw))
    ensures ctx.toCount == toCount && ctx.hasAttachment == hasAttachment && ctx.subject == subject
  {
    var blocks := ParseBodyBlocks(body, view);
    var raw := BodyRaw(blocks, body, view);
    ctx := ComposeContext(toCount, hasAttachment, subject, CleanText(Some(raw)), raw, blocks);
  }
}
