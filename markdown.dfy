/** `render_markdown`, `make_tag` and `add_class` of common/src/markup.rs,
    with `Markup::to_dom`. The Markdown tokenizer is foreign: the renderer is
    fed its event sequence. A stack machine keeps the open elements on the
    `spine` and the finished top-level elements in `elems`. */
module MarkdownRender {
  import opened Chars
  import opened Outcomes
  import Markups
  import opened Texts

  // ---------------------------------------------------------------------------
  // The tokenizer's alphabet (pulldown-cmark 0.9), as far as the renderer reads it.

  datatype Alignment = AlignNone | Left | Center | Right
  datatype CodeBlockKind = Indented | Fenced(info: string)
  type Level = n: nat | 1 <= n <= 6 witness 1

  datatype Tag =
    | Paragraph
    | Heading(level: Level)
    | BlockQuote
    | CodeBlock(kind: CodeBlockKind)
    | List(start: Option<nat>)
    | Item
    | FootnoteDefinition(name: string)
    | Table(aligns: seq<Alignment>)
    | TableHead
    | TableRow
    | TableCell
    | Emphasis
    | Strong
    | Strikethrough
    | Link(href: string, title: string)
    | Image(src: string, title: string)

  datatype Event =
    | Start(tag: Tag)
    | End(tag: Tag)
    | Text(text: string)
    | Code(code: string)
    | Html(html: string)
    | FootnoteReference(name: string)
    | SoftBreak
    | HardBreak
    | Rule
    | TaskListMarker(checked: bool)

  // ---------------------------------------------------------------------------
  // The virtual DOM built.

  datatype Node = Elem(el: Element) | TextNode(text: string)
  datatype Element = Element(name: string, attrs: map<string, string>, children: seq<Node>)

  /** The three `assert!`/index panics of the renderer. */
  datatype Panic = TextOutsideElement | EndOutsideElement | CellWithoutAlignment

  /** One root is returned as itself, any other number as a fragment. */
  datatype Rendered = Single(root: Element) | Fragment(roots: seq<Element>)

  function NewTag(name: string): Element { Element(name, map[], []) }

  function AddChild(e: Element, n: Node): Element { e.(children := e.children + [n]) }

  function AddAttribute(e: Element, key: string, value: string): Element {
    e.(attrs := e.attrs[key := value])
  }

  // ---------------------------------------------------------------------------
  // `add_class`: the class attribute read as a whitespace-separated set of
  // class names (first occurrence kept), the new class pushed unless present,
  // and the set written back joined by single spaces.

  function PushUnique(ws: seq<string>, w: string): (r: seq<string>)
    ensures forall v :: v in r <==> v in ws || v == w
  {
    if w in ws then ws else ws + [w]
  }

  /** Collecting into an insertion-ordered set: the first occurrence of each
      name, in order. */
  function Dedup(ws: seq<string>): (r: seq<string>)
    ensures forall v :: v in r <==> v in ws
  {
    if ws == [] then [] else PushUnique(Dedup(ws[..|ws| - 1]), ws[|ws| - 1])
  }

  function ClassOf(e: Element): string {
    if "class" in e.attrs then e.attrs["class"] else []
  }

  function AddClass(e: Element, name: string): Element {
    AddAttribute(e, "class", Join(PushUnique(Dedup(Words(ClassOf(e))), name), " "))
  }

  /** `add_class` keeps the classes already there, each once and in order,
      and appends the new one if it is not among them; nothing but the class
      attribute changes. */
  lemma AddClassAppends(e: Element, name: string)
    requires IsWord(name)
    ensures Words(ClassOf(AddClass(e, name))) == PushUnique(Dedup(Words(ClassOf(e))), name)
    ensures name in Words(ClassOf(AddClass(e, name)))
    ensures forall v :: v in Words(ClassOf(e)) ==> v in Words(ClassOf(AddClass(e, name)))
    ensures AddClass(e, name).name == e.name && AddClass(e, name).children == e.children
    ensures forall k | k in e.attrs && k != "class" :: k in AddClass(e, name).attrs && AddClass(e, name).attrs[k] == e.attrs[k]
  {
    var ws := PushUnique(Dedup(Words(ClassOf(e))), name);
    forall i | 0 <= i < |ws|
      ensures IsWord(ws[i])
    {
      assert ws[i] in ws;
      if ws[i] != name {
        assert ws[i] in Words(ClassOf(e));
        var j :| 0 <= j < |Words(ClassOf(e))| && Words(ClassOf(e))[j] == ws[i];
      }
    }
    WordsOfJoin(ws);
  }

  // ---------------------------------------------------------------------------
  // `make_tag`: the element opened for a tag.

  function LanguageClass(info: string): Option<string> {
    if info == "html" || info == "rust" || info == "java" || info == "c" then Some(info + "-language")
    else None
  }

  function MakeTag(t: Tag): (e: Element)
    ensures e.children == []
    ensures t.Heading? ==> e == NewTag("h" + Decimal(t.level))
    ensures t.List? ==>
              e.name == (if t.start.None? then "ul" else "ol") &&
              ("start" in e.attrs <==> t.start.Some? && t.start.value != 1) &&
              (t.start.Some? && t.start.value != 1 ==> e.attrs["start"] == Decimal(t.start.value))
    ensures t.Link? ==>
              e.name == "a" && "href" in e.attrs && e.attrs["href"] == t.href &&
              ("title" in e.attrs <==> t.title != []) &&
              (t.title != [] ==> e.attrs["title"] == t.title)
    ensures t.Image? ==>
              e.name == "img" && "src" in e.attrs && e.attrs["src"] == t.src &&
              ("title" in e.attrs <==> t.title != []) &&
              (t.title != [] ==> e.attrs["title"] == t.title)
    ensures t.CodeBlock? ==>
              e.name == "code" &&
              ("class" in e.attrs <==> t.kind.Fenced? && t.kind.info in {"html", "rust", "java", "c"}) &&
              ("class" in e.attrs ==> e.attrs["class"] == t.kind.info + "-language")
  {
    match t
    case Paragraph => NewTag("p")
    case Heading(n) => NewTag("h" + Decimal(n))
    case BlockQuote => AddAttribute(NewTag("blockquote"), "class", "blockquote")
    case CodeBlock(kind) =>
      if kind.Fenced? && LanguageClass(kind.info).Some? then
        AddAttribute(NewTag("code"), "class", LanguageClass(kind.info).value)
      else NewTag("code")
    case List(None) => NewTag("ul")
    case List(Some(start)) =>
      if start == 1 then NewTag("ol") else AddAttribute(NewTag("ol"), "start", Decimal(start))
    case Item => NewTag("li")
    case Table(_) => AddAttribute(NewTag("table"), "class", "table")
    case TableHead => NewTag("th")
    case TableRow => NewTag("tr")
    case TableCell => NewTag("td")
    case Emphasis => AddAttribute(NewTag("span"), "class", "font-italic")
    case Strong => AddAttribute(NewTag("span"), "class", "font-weight-bold")
    case Link(href, title) =>
      var a := AddAttribute(NewTag("a"), "href", href);
      if title != [] then AddAttribute(a, "title", title) else a
    case Image(src, title) =>
      var img := AddAttribute(NewTag("img"), "src", src);
      if title != [] then AddAttribute(img, "title", title) else img
    case FootnoteDefinition(_) => NewTag("span")
    case Strikethrough => AddAttribute(NewTag("span"), "class", "text-decoration-strikethrough")
  }

  // ---------------------------------------------------------------------------
  // Closing an element: code blocks are wrapped in `pre`, table cells get the
  // column's alignment class, table-head cells get `scope="col"`.

  function AlignClass(a: Alignment): Option<string> {
    match a
    case AlignNone => None
    case Left => Some("text-left")
    case Center => Some("text-center")
    case Right => Some("text-right")
  }

  function Align(e: Element, a: Alignment): Element {
    match AlignClass(a)
    case None => e
    case Some(c) => AddClass(e, c)
  }

  /** Every element cell of the row has a column alignment to index. */
  predicate RowFits(row: Node, aligns: seq<Alignment>) {
    row.Elem? ==>
      forall i | 0 <= i < |row.el.children| :: row.el.children[i].Elem? ==> i < |aligns|
  }

  predicate TableFits(table: Element, aligns: seq<Alignment>) {
    forall j | 0 <= j < |table.children| :: RowFits(table.children[j], aligns)
  }

  /** The cell in column `i` (text nodes count as columns but are left alone). */
  function AlignCellAt(cells: seq<Node>, i: nat, aligns: seq<Alignment>): Node
    requires i < |cells| && (cells[i].Elem? ==> i < |aligns|)
  {
    if cells[i].Elem? then Elem(Align(cells[i].el, aligns[i])) else cells[i]
  }

  function AlignRow(row: Node, aligns: seq<Alignment>): Node
    requires RowFits(row, aligns)
  {
    if row.Elem? then
      var cells := row.el.children;
      Elem(row.el.(children := seq(|cells|, i requires 0 <= i < |cells| => AlignCellAt(cells, i, aligns))))
    else row
  }

  function AlignedTable(table: Element, aligns: seq<Alignment>): Element
    requires TableFits(table, aligns)
  {
    var rows := table.children;
    table.(children := seq(|rows|, j requires 0 <= j < |rows| => AlignRow(rows[j], aligns)))
  }

  /** In an aligned table every element cell of every element row carries its
      column's class, and rows and cells keep their places and names. */
  lemma AlignedTableClasses(table: Element, aligns: seq<Alignment>, j: nat, i: nat)
    requires TableFits(table, aligns)
    requires j < |table.children| && table.children[j].Elem?
    requires i < |table.children[j].el.children| && table.children[j].el.children[i].Elem?
    ensures var row := AlignedTable(table, aligns).children[j];
            row.Elem? && i < |row.el.children| && row.el.children[i].Elem? &&
            row.el.children[i].el.name == table.children[j].el.children[i].el.name &&
            (AlignClass(aligns[i]).Some? ==> AlignClass(aligns[i]).value in Words(ClassOf(row.el.children[i].el))) &&
            (AlignClass(aligns[i]).None? ==> row.el.children[i] == table.children[j].el.children[i])
  {
    var cell := table.children[j].el.children[i].el;
    if AlignClass(aligns[i]).Some? {
      AddClassAppends(cell, AlignClass(aligns[i]).value);
    }
  }

  function ScopeCell(n: Node): Node {
    if n.Elem? then Elem(AddAttribute(n.el, "scope", "col")) else n
  }

  /** Every element child of the head gets `scope="col"`; nothing else changes. */
  function ScopedHead(head: Element): (r: Element)
    ensures r.name == head.name && r.attrs == head.attrs && |r.children| == |head.children|
    ensures forall i | 0 <= i < |head.children| ::
              if head.children[i].Elem? then
                r.children[i].Elem? && r.children[i].el.name == head.children[i].el.name &&
                r.children[i].el.children == head.children[i].el.children &&
                r.children[i].el.attrs == head.children[i].el.attrs["scope" := "col"]
              else r.children[i] == head.children[i]
  {
    var cells := head.children;
    head.(children := seq(|cells|, i requires 0 <= i < |cells| => ScopeCell(cells[i])))
  }

  function Close(t: Tag, top: Element): Result<Element, Panic> {
    match t
    case CodeBlock(_) => Ok(Element("pre", map[], [Elem(top)]))
    case Table(aligns) => if TableFits(top, aligns) then Ok(AlignedTable(top, aligns)) else Err(CellWithoutAlignment)
    case TableHead => Ok(ScopedHead(top))
    case _ => Ok(top)
  }

  // ---------------------------------------------------------------------------
  // The stack machine.

  datatype Machine = Machine(spine: seq<Element>, elems: seq<Element>)

  /** Events that add one child to the innermost open element. */
  predicate IsLeaf(ev: Event) {
    ev.Text? || ev.Rule? || ev.SoftBreak? || ev.HardBreak?
  }

  /** Events the renderer logs and skips. */
  predicate IsUnsupported(ev: Event) {
    ev.Code? || ev.Html? || ev.FootnoteReference? || ev.TaskListMarker?
  }

  function LeafNode(ev: Event): Node
    requires IsLeaf(ev)
  {
    match ev
    case Text(s) => TextNode(s)
    case Rule => Elem(NewTag("hr"))
    case SoftBreak => TextNode("\n")
    case HardBreak => Elem(NewTag("br"))
  }

  function Delta(ev: Event): int {
    if ev.Start? then 1 else if ev.End? then -1 else 0
  }

  /** A closed element goes to the new innermost open element, or to the roots
      when none is left open. */
  function Attach(spine: seq<Element>, elems: seq<Element>, top: Element): Machine {
    if spine == [] then Machine([], elems + [top])
    else Machine(spine[..|spine| - 1] + [AddChild(spine[|spine| - 1], Elem(top))], elems)
  }

  function Step(st: Machine, ev: Event): Result<Machine, Panic> {
    match ev
    case Start(t) => Ok(st.(spine := st.spine + [MakeTag(t)]))
    case End(t) =>
      if st.spine == [] then Err(EndOutsideElement)
      else
        var l := |st.spine|;
        (match Close(t, st.spine[l - 1])
         case Err(p) => Err(p)
         case Ok(top) => Ok(Attach(st.spine[..l - 1], st.elems, top)))
    case Text(_) => AddLeaf(st, LeafNode(ev))
    case Rule => AddLeaf(st, LeafNode(ev))
    case SoftBreak => AddLeaf(st, LeafNode(ev))
    case HardBreak => AddLeaf(st, LeafNode(ev))
    case _ => Ok(st)
  }

  /** A leaf goes into the innermost open element; with none open it panics. */
  function AddLeaf(st: Machine, n: Node): (r: Result<Machine, Panic>)
    ensures r.Err? <==> st.spine == []
    ensures r.Err? ==> r.error == TextOutsideElement
    ensures r.Ok? ==> r.value.elems == st.elems && |r.value.spine| == |st.spine| &&
                      r.value.spine[..|st.spine| - 1] == st.spine[..|st.spine| - 1] &&
                      r.value.spine[|st.spine| - 1] == AddChild(st.spine[|st.spine| - 1], n)
  {
    if st.spine == [] then Err(TextOutsideElement)
    else
      var l := |st.spine|;
      Ok(st.(spine := st.spine[l - 1 := AddChild(st.spine[l - 1], n)]))
  }

  /** One event: a start opens one element, an end closes one, a leaf needs an
      open element, unsupported events change nothing; the roots only grow, by
      one when the outermost element closes; the only panics are the three
      named ones. */
  lemma StepFacts(st: Machine, ev: Event)
    ensures var r := Step(st, ev);
            (IsUnsupported(ev) ==> r == Ok(st)) &&
            (ev.Start? ==> r.Ok?) &&
            (IsLeaf(ev) ==> (r.Err? <==> st.spine == [])) &&
            (ev.End? && st.spine == [] ==> r == Err(EndOutsideElement)) &&
            (ev.End? && st.spine != [] && ev.tag.Table? ==>
               (r.Err? <==> !TableFits(st.spine[|st.spine| - 1], ev.tag.aligns))) &&
            (r.Err? ==> (IsLeaf(ev) && st.spine == [] && r.error == TextOutsideElement) ||
                        (ev.End? && (st.spine == [] || ev.tag.Table?))) &&
            (r.Ok? ==> |r.value.spine| == |st.spine| + Delta(ev)) &&
            (r.Ok? ==> |st.elems| <= |r.value.elems| && r.value.elems[..|st.elems|] == st.elems) &&
            (r.Ok? ==> |r.value.elems| == |st.elems| + (if ev.End? && |st.spine| == 1 then 1 else 0))
  {
    var r := Step(st, ev);
    if r.Ok? && ev.End? {
      assert r.value.elems[..|st.elems|] == st.elems;
    }
  }

  function Run(st: Machine, evs: seq<Event>): Result<Machine, Panic>
    decreases |evs|
  {
    if evs == [] then Ok(st)
    else
      match Step(st, evs[0])
      case Err(p) => Err(p)
      case Ok(next) => Run(next, evs[1..])
  }

  /** What is left open at the end is dropped; the roots are returned. */
  function Finish(elems: seq<Element>): (r: Rendered)
    ensures r.Single? <==> |elems| == 1
    ensures r.Single? ==> r.root == elems[0]
    ensures r.Fragment? ==> r.roots == elems
  {
    if |elems| == 1 then Single(elems[0]) else Fragment(elems)
  }

  function Render(evs: seq<Event>): Result<Rendered, Panic> {
    match Run(Machine([], []), evs)
    case Err(p) => Err(p)
    case Ok(st) => Ok(Finish(st.elems))
  }

  // ---------------------------------------------------------------------------
  // The renderer as written: a loop over the events that pushes and pops the
  // spine, with the table post-processing as loops over rows and cells.

  method AlignTable(table: Element, aligns: seq<Alignment>) returns (r: Result<Element, Panic>)
    ensures TableFits(table, aligns) ==> r == Ok(AlignedTable(table, aligns))
    ensures !TableFits(table, aligns) ==> r == Err(CellWithoutAlignment)
  {
    var rows := table.children;
    var j := 0;
    while j < |rows|
      invariant 0 <= j <= |rows| == |table.children|
      invariant forall k | 0 <= k < j :: RowFits(table.children[k], aligns) && rows[k] == AlignRow(table.children[k], aligns)
      invariant forall k | j <= k < |rows| :: rows[k] == table.children[k]
    {
      var row := rows[j];
      if row.Elem? {
        var cells := row.el.children;
        var i := 0;
        while i < |cells|
          invariant 0 <= i <= |cells| == |row.el.children|
          invariant forall k | 0 <= k < i ::
                      (row.el.children[k].Elem? ==> k < |aligns|) && cells[k] == AlignCellAt(row.el.children, k, aligns)
          invariant forall k | i <= k < |cells| :: cells[k] == row.el.children[k]
        {
          if cells[i].Elem? {
            if i >= |aligns| {
              assert !RowFits(table.children[j], aligns);
              return Err(CellWithoutAlignment);
            }
            cells := cells[i := Elem(Align(cells[i].el, aligns[i]))];
          }
          i := i + 1;
        }
        assert RowFits(row, aligns);
        assert cells == seq(|cells|, k requires 0 <= k < |cells| => AlignCellAt(row.el.children, k, aligns));
        rows := rows[j := Elem(row.el.(children := cells))];
      }
      j := j + 1;
    }
    assert rows == seq(|rows|, k requires 0 <= k < |rows| => AlignRow(table.children[k], aligns));
    return Ok(table.(children := rows));
  }

  method ScopeHead(head: Element) returns (r: Element)
    ensures r == ScopedHead(head)
  {
    var cells := head.children;
    var i := 0;
    while i < |cells|
      invariant 0 <= i <= |cells| == |head.children|
      invariant forall k | 0 <= k < i :: cells[k] == ScopeCell(head.children[k])
      invariant forall k | i <= k < |cells| :: cells[k] == head.children[k]
    {
      if cells[i].Elem? {
        cells := cells[i := Elem(AddAttribute(cells[i].el, "scope", "col"))];
      }
      i := i + 1;
    }
    assert cells == seq(|cells|, k requires 0 <= k < |cells| => ScopeCell(head.children[k]));
    r := head.(children := cells);
  }

  /** An end event: the innermost open element is popped, post-processed by
      its tag, and attached to its parent or made a root. */
  method CloseInnermost(spine: seq<Element>, elems: seq<Element>, t: Tag) returns (r: Result<Machine, Panic>)
    ensures r == Step(Machine(spine, elems), End(t))
  {
    var l := |spine|;
    if l < 1 {
      return Err(EndOutsideElement);
    }
    var top := spine[l - 1];
    ghost var open := top;
    var rest := spine[..l - 1];
    if t.CodeBlock? {
      top := Element("pre", map[], [Elem(top)]);
    } else if t.Table? {
      var aligned := AlignTable(top, t.aligns);
      if aligned.Err? {
        return Err(aligned.error);
      }
      top := aligned.value;
    } else if t.TableHead? {
      top := ScopeHead(top);
    }
    assert Close(t, open) == Ok(top);
    if l == 1 {
      return Ok(Machine([], elems + [top]));
    }
    rest := rest[l - 2 := AddChild(rest[l - 2], Elem(top))];
    assert rest == Attach(spine[..l - 1], elems, top).spine;
    return Ok(Machine(rest, elems));
  }

  /** A leaf event: the node becomes the last child of the innermost open
      element. */
  method AppendLeaf(spine: seq<Element>, elems: seq<Element>, n: Node) returns (r: Result<Machine, Panic>)
    ensures r == AddLeaf(Machine(spine, elems), n)
  {
    if |spine| == 0 {
      return Err(TextOutsideElement);
    }
    var l := |spine|;
    return Ok(Machine(spine[l - 1 := AddChild(spine[l - 1], n)], elems));
  }

  method RenderMarkdown(events: seq<Event>) returns (r: Result<Rendered, Panic>)
    ensures r == Render(events)
  {
    var elems: seq<Element> := [];
    var spine: seq<Element> := [];
    var i := 0;
    while i < |events|
      invariant 0 <= i <= |events|
      invariant Run(Machine([], []), events) == Run(Machine(spine, elems), events[i..])
    {
      var ev := events[i];
      assert events[i..][1..] == events[i + 1..];
      var next: Result<Machine, Panic>;
      match ev {
        case Start(t) =>
          next := Ok(Machine(spine + [MakeTag(t)], elems));
        case End(t) =>
          next := CloseInnermost(spine, elems, t);
        case Text(s) =>
          next := AppendLeaf(spine, elems, TextNode(s));
        case Rule =>
          next := AppendLeaf(spine, elems, Elem(NewTag("hr")));
        case SoftBreak =>
          next := AppendLeaf(spine, elems, TextNode("\n"));
        case HardBreak =>
          next := AppendLeaf(spine, elems, Elem(NewTag("br")));
        case _ =>
          next := Ok(Machine(spine, elems));
      }
      assert next == Step(Machine(spine, elems), ev);
      if next.Err? {
        return Err(next.error);
      }
      spine, elems := next.value.spine, next.value.elems;
      i := i + 1;
    }
    assert events[i..] == [];
    if |elems| == 1 {
      return Ok(Single(elems[0]));
    }
    return Ok(Fragment(elems));
  }

  // ---------------------------------------------------------------------------
  // Properties of the stack machine.

  /** Starts minus ends. */
  function Balance(evs: seq<Event>): int {
    if evs == [] then 0 else Delta(evs[0]) + Balance(evs[1..])
  }

  /** After any run that does not panic, the spine has grown by the number of
      starts less the number of ends, and the roots found before are kept, in
      order, in front of any new ones. */
  lemma {:induction false} RunDepth(st: Machine, evs: seq<Event>)
    requires Run(st, evs).Ok?
    ensures |Run(st, evs).value.spine| == |st.spine| + Balance(evs)
    ensures |st.elems| <= |Run(st, evs).value.elems|
    ensures Run(st, evs).value.elems[..|st.elems|] == st.elems
    decreases |evs|
  {
    if evs != [] {
      StepFacts(st, evs[0]);
      var next := Step(st, evs[0]).value;
      RunDepth(next, evs[1..]);
      var fin := Run(st, evs).value;
      assert fin == Run(next, evs[1..]).value;
      assert fin.elems[..|st.elems|] == fin.elems[..|next.elems|][..|st.elems|];
    }
  }

  predicate NoTableEnd(evs: seq<Event>) {
    forall i | 0 <= i < |evs| :: !(evs[i].End? && evs[i].tag.Table?)
  }

  /** The events never close more than is open and never add a child while
      nothing is open, starting at depth `d`. */
  predicate Nests(d: nat, evs: seq<Event>)
    decreases |evs|
  {
    if evs == [] then true
    else if evs[0].Start? then Nests(d + 1, evs[1..])
    else if evs[0].End? then d > 0 && Nests(d - 1, evs[1..])
    else if IsLeaf(evs[0]) then d > 0 && Nests(d, evs[1..])
    else Nests(d, evs[1..])
  }

  /** Outside tables the renderer panics exactly when the events close an
      element that is not open or add a child while nothing is open. */
  lemma {:induction false} RunOkIffNested(st: Machine, evs: seq<Event>)
    requires NoTableEnd(evs)
    ensures Run(st, evs).Ok? <==> Nests(|st.spine|, evs)
    decreases |evs|
  {
    if evs != [] {
      var ev := evs[0];
      assert !(ev.End? && ev.tag.Table?);
      assert NoTableEnd(evs[1..]) by {
        forall i | 0 <= i < |evs[1..]|
          ensures !(evs[1..][i].End? && evs[1..][i].tag.Table?)
        {
          assert evs[1..][i] == evs[i + 1];
        }
      }
      StepFacts(st, ev);
      if Step(st, ev).Ok? {
        RunOkIffNested(Step(st, ev).value, evs[1..]);
      }
    }
  }

  // ---------------------------------------------------------------------------
  // Worked examples, walked one event at a time with these single steps.

  lemma RunFrom(st: Machine, evs: seq<Event>, i: nat, next: Machine)
    requires i < |evs| && Step(st, evs[i]) == Ok(next)
    ensures Run(st, evs[i..]) == Run(next, evs[i + 1..])
  {
    assert evs[i..][1..] == evs[i + 1..];
  }

  lemma RunPanicsAt(st: Machine, evs: seq<Event>, i: nat, p: Panic)
    requires i < |evs| && Step(st, evs[i]) == Err(p)
    ensures Run(st, evs[i..]) == Err(p)
  {
    assert evs[i..][0] == evs[i];
  }

  lemma RunDone(st: Machine, evs: seq<Event>)
    ensures Run(st, evs[|evs|..]) == Ok(st)
  {
    assert evs[|evs|..] == [];
  }

  lemma OpenStep(s: seq<Element>, t: Tag, e: Element)
    requires MakeTag(t) == e
    ensures Step(Machine(s, []), Start(t)) == Ok(Machine(s + [e], []))
  {
  }

  lemma LeafStep(s: seq<Element>, x: Element, ev: Event)
    requires IsLeaf(ev)
    ensures Step(Machine(s + [x], []), ev) == Ok(Machine(s + [AddChild(x, LeafNode(ev))], []))
  {
    assert (s + [x])[|s| := AddChild(x, LeafNode(ev))] == s + [AddChild(x, LeafNode(ev))];
  }

  lemma CloseStep(s: seq<Element>, p: Element, x: Element, t: Tag, c: Element)
    requires Close(t, x) == Ok(c)
    ensures Step(Machine(s + [p, x], []), End(t)) == Ok(Machine(s + [AddChild(p, Elem(c))], []))
  {
    var sp := s + [p, x];
    assert sp[..|sp| - 1] == s + [p];
    assert (s + [p])[..|s|] == s;
  }

  lemma CloseRootStep(x: Element, t: Tag, c: Element)
    requires Close(t, x) == Ok(c)
    ensures Step(Machine([x], []), End(t)) == Ok(Machine([], [c]))
  {
    assert [x][..0] == [];
    assert [] + [c] == [c];
  }

  function StrongEvents(t: string): seq<Event> {
    [Start(Paragraph), Start(Strong), Text(t), End(Strong), End(Paragraph)]
  }

  function BoldSpan(t: seq<Node>): Element { Element("span", map["class" := "font-weight-bold"], t) }

  lemma StrongOpens(t: string)
    ensures Run(Machine([], []), StrongEvents(t)) ==
            Run(Machine([NewTag("p"), BoldSpan([])], []), StrongEvents(t)[2..])
  {
    var evs := StrongEvents(t);
    var p, span := NewTag("p"), BoldSpan([]);
    OpenStep([], Paragraph, p);
    assert [] + [p] == [p];
    RunFrom(Machine([], []), evs, 0, Machine([p], []));
    OpenStep([p], Strong, span);
    assert [p] + [span] == [p, span];
    RunFrom(Machine([p], []), evs, 1, Machine([p, span], []));
    assert evs[0..] == evs;
  }

  lemma StrongFilled(t: string)
    ensures Run(Machine([NewTag("p"), BoldSpan([])], []), StrongEvents(t)[2..]) ==
            Run(Machine([NewTag("p"), BoldSpan([TextNode(t)])], []), StrongEvents(t)[3..])
  {
    var evs := StrongEvents(t);
    var p, span, spanT := NewTag("p"), BoldSpan([]), BoldSpan([TextNode(t)]);
    LeafStep([p], span, Text(t));
    assert AddChild(span, TextNode(t)) == spanT by { assert [] + [TextNode(t)] == [TextNode(t)]; }
    assert [p] + [span] == [p, span] && [p] + [spanT] == [p, spanT];
    RunFrom(Machine([p, span], []), evs, 2, Machine([p, spanT], []));
  }

  lemma StrongCloses(t: string)
    ensures Run(Machine([NewTag("p"), BoldSpan([TextNode(t)])], []), StrongEvents(t)[3..]) ==
            Ok(Machine([], [Element("p", map[], [Elem(BoldSpan([TextNode(t)]))])]))
  {
    var evs := StrongEvents(t);
    var p, spanT := NewTag("p"), BoldSpan([TextNode(t)]);
    var root := Element("p", map[], [Elem(spanT)]);
    CloseStep([], p, spanT, Strong, spanT);
    assert AddChild(p, Elem(spanT)) == root by { assert [] + [Elem(spanT)] == [Elem(spanT)]; }
    assert [] + [p, spanT] == [p, spanT] && [] + [root] == [root];
    RunFrom(Machine([p, spanT], []), evs, 3, Machine([root], []));
    CloseRootStep(root, Paragraph, root);
    RunFrom(Machine([root], []), evs, 4, Machine([], [root]));
    RunDone(Machine([], [root]), evs);
  }

  /** A strong span inside a paragraph. */
  lemma StrongParagraph(t: string)
    ensures Render([Start(Paragraph), Start(Strong), Text(t), End(Strong), End(Paragraph)]) ==
            Ok(Single(Element("p", map[], [Elem(Element("span", map["class" := "font-weight-bold"], [TextNode(t)]))])))
  {
    StrongOpens(t);
    StrongFilled(t);
    StrongCloses(t);
  }

  function CodeEvents(x: string): seq<Event> {
    [Start(CodeBlock(Fenced("rust"))), Text(x), End(CodeBlock(Fenced("rust")))]
  }

  function RustCode(t: seq<Node>): Element { Element("code", map["class" := "rust-language"], t) }

  lemma RustCodeOpens(x: string)
    ensures Run(Machine([], []), CodeEvents(x)) == Run(Machine([RustCode([TextNode(x)])], []), CodeEvents(x)[2..])
  {
    var tag := CodeBlock(Fenced("rust"));
    var evs := CodeEvents(x);
    var code, codeX := RustCode([]), RustCode([TextNode(x)]);
    assert MakeTag(tag) == code by {
      assert "rust" + "-language" == "rust-language";
      assert LanguageClass("rust") == Some("rust-language");
    }
    OpenStep([], tag, code);
    assert [] + [code] == [code];
    RunFrom(Machine([], []), evs, 0, Machine([code], []));
    LeafStep([], code, Text(x));
    assert AddChild(code, TextNode(x)) == codeX by { assert [] + [TextNode(x)] == [TextNode(x)]; }
    assert [] + [codeX] == [codeX];
    RunFrom(Machine([code], []), evs, 1, Machine([codeX], []));
    assert evs[0..] == evs;
  }

  /** A fenced Rust block becomes a `pre` around a `code` with the language class. */
  lemma FencedCodeInPre(x: string)
    ensures Render([Start(CodeBlock(Fenced("rust"))), Text(x), End(CodeBlock(Fenced("rust")))]) ==
            Ok(Single(Element("pre", map[], [Elem(Element("code", map["class" := "rust-language"], [TextNode(x)]))])))
  {
    var evs := CodeEvents(x);
    var codeX := RustCode([TextNode(x)]);
    var pre := Element("pre", map[], [Elem(codeX)]);
    RustCodeOpens(x);
    CloseRootStep(codeX, CodeBlock(Fenced("rust")), pre);
    RunFrom(Machine([codeX], []), evs, 2, Machine([], [pre]));
    RunDone(Machine([], [pre]), evs);
  }

  /** Elements still open at the end are dropped: no root, an empty fragment. */
  lemma UnclosedDropped(x: string)
    ensures Render([Start(Paragraph), Text(x)]) == Ok(Fragment([]))
  {
    var evs := [Start(Paragraph), Text(x)];
    var p := NewTag("p");
    var px := AddChild(p, TextNode(x));
    OpenStep([], Paragraph, p);
    assert [] + [p] == [p];
    RunFrom(Machine([], []), evs, 0, Machine([p], []));
    LeafStep([], p, Text(x));
    assert [] + [px] == [px];
    RunFrom(Machine([p], []), evs, 1, Machine([px], []));
    RunDone(Machine([px], []), evs);
    assert evs[0..] == evs;
  }

  /** Aligning a cell that has no class yet sets the class to the column's. */
  lemma AlignUnclassed(e: Element, a: Alignment)
    requires "class" !in e.attrs && AlignClass(a).Some?
    ensures Align(e, a) == e.(attrs := e.attrs["class" := AlignClass(a).value])
  {
    var w := AlignClass(a).value;
    assert ClassOf(e) == [];
    assert Words([]) == [] && Dedup([]) == [];
    assert PushUnique([], w) == [w];
  }

  /** Two header cells with texts `a` and `b`, in a table aligned Left and Right. */
  function HeaderTableEvents(a: string, b: string): seq<Event> {
    var aligns := [Left, Right];
    [Start(Table(aligns)), Start(TableHead),
     Start(TableCell), Text(a), End(TableCell),
     Start(TableCell), Text(b), End(TableCell),
     End(TableHead), End(Table(aligns))]
  }

  function TableTag(): Element { Element("table", map["class" := "table"], []) }
  function Cell(text: string): Element { Element("td", map[], [TextNode(text)]) }
  function ScopedCell(text: string): Element { Element("td", map["scope" := "col"], [TextNode(text)]) }

  /** A cell with one text child is opened, filled and closed into the head. */
  lemma HeaderCell(evs: seq<Event>, i: nat, table: Element, th: Element, text: string)
    requires i + 3 <= |evs| && evs[i] == Start(TableCell) && evs[i + 1] == Text(text) && evs[i + 2] == End(TableCell)
    ensures Run(Machine([table, th], []), evs[i..]) ==
            Run(Machine([table, AddChild(th, Elem(Cell(text)))], []), evs[i + 3..])
  {
    HeaderCellFilled(evs, i, table, th, text);
    var cell := Cell(text);
    CloseStep([table], th, cell, TableCell, cell);
    assert [table] + [th, cell] == [table, th, cell];
    assert [table] + [AddChild(th, Elem(cell))] == [table, AddChild(th, Elem(cell))];
    RunFrom(Machine([table, th, cell], []), evs, i + 2, Machine([table, AddChild(th, Elem(cell))], []));
  }

  lemma HeaderCellFilled(evs: seq<Event>, i: nat, table: Element, th: Element, text: string)
    requires i + 3 <= |evs| && evs[i] == Start(TableCell) && evs[i + 1] == Text(text)
    ensures Run(Machine([table, th], []), evs[i..]) == Run(Machine([table, th, Cell(text)], []), evs[i + 2..])
  {
    var td, cell := NewTag("td"), Cell(text);
    OpenStep([table, th], TableCell, td);
    assert [table, th] + [td] == [table, th, td];
    RunFrom(Machine([table, th], []), evs, i, Machine([table, th, td], []));
    LeafStep([table, th], td, Text(text));
    assert AddChild(td, TextNode(text)) == cell by { assert [] + [TextNode(text)] == [TextNode(text)]; }
    assert [table, th] + [cell] == [table, th, cell];
    RunFrom(Machine([table, th, td], []), evs, i + 1, Machine([table, th, cell], []));
  }

  lemma HeaderTableOpens(a: string, b: string)
    ensures Run(Machine([], []), HeaderTableEvents(a, b)) ==
            Run(Machine([TableTag(), NewTag("th")], []), HeaderTableEvents(a, b)[2..])
  {
    var evs := HeaderTableEvents(a, b);
    var table, th := TableTag(), NewTag("th");
    OpenStep([], Table([Left, Right]), table);
    assert [] + [table] == [table];
    RunFrom(Machine([], []), evs, 0, Machine([table], []));
    OpenStep([table], TableHead, th);
    assert [table] + [th] == [table, th];
    RunFrom(Machine([table], []), evs, 1, Machine([table, th], []));
    assert evs[0..] == evs;
  }

  lemma HeaderTableFirstCell(a: string, b: string)
    ensures Run(Machine([TableTag(), NewTag("th")], []), HeaderTableEvents(a, b)[2..]) ==
            Run(Machine([TableTag(), AddChild(NewTag("th"), Elem(Cell(a)))], []), HeaderTableEvents(a, b)[5..])
  {
    HeaderCell(HeaderTableEvents(a, b), 2, TableTag(), NewTag("th"), a);
  }

  lemma HeaderTableSecondCell(a: string, b: string, th: Element)
    ensures Run(Machine([TableTag(), th], []), HeaderTableEvents(a, b)[5..]) ==
            Run(Machine([TableTag(), AddChild(th, Elem(Cell(b)))], []), HeaderTableEvents(a, b)[8..])
  {
    HeaderCell(HeaderTableEvents(a, b), 5, TableTag(), th, b);
  }

  lemma HeadOfTwo(a: string, b: string)
    ensures AddChild(AddChild(NewTag("th"), Elem(Cell(a))), Elem(Cell(b))) ==
            Element("th", map[], [Elem(Cell(a)), Elem(Cell(b))])
  {
    assert AddChild(AddChild(NewTag("th"), Elem(Cell(a))), Elem(Cell(b))).children == [Elem(Cell(a)), Elem(Cell(b))];
  }

  lemma HeaderTableHeadCloses(a: string, b: string)
    ensures Close(TableHead, Element("th", map[], [Elem(Cell(a)), Elem(Cell(b))])) ==
            Ok(Element("th", map[], [Elem(ScopedCell(a)), Elem(ScopedCell(b))]))
  {
    var head := Element("th", map[], [Elem(Cell(a)), Elem(Cell(b))]);
    assert ScopedHead(head).children == [Elem(ScopedCell(a)), Elem(ScopedCell(b))];
  }

  function AlignedHeaderTable(a: string, b: string): Element {
    Element("table", map["class" := "table"], [
      Elem(Element("th", map[], [
        Elem(Element("td", map["scope" := "col", "class" := "text-left"], [TextNode(a)])),
        Elem(Element("td", map["scope" := "col", "class" := "text-right"], [TextNode(b)]))]))])
  }

  lemma HeaderTableCloses(a: string, b: string, table: Element)
    requires table == Element("table", map["class" := "table"],
                              [Elem(Element("th", map[], [Elem(ScopedCell(a)), Elem(ScopedCell(b))]))])
    ensures Close(Table([Left, Right]), table) == Ok(AlignedHeaderTable(a, b))
  {
    var aligns := [Left, Right];
    var head := table.children[0];
    var want := AlignedHeaderTable(a, b);
    AlignUnclassed(ScopedCell(a), Left);
    AlignUnclassed(ScopedCell(b), Right);
    assert TableFits(table, aligns);
    assert AlignRow(head, aligns) == want.children[0] by {
      assert AlignCellAt(head.el.children, 0, aligns) == want.children[0].el.children[0];
      assert AlignCellAt(head.el.children, 1, aligns) == want.children[0].el.children[1];
    }
    assert AlignedTable(table, aligns) == want;
  }

  /** A header row of two cells under alignments Left and Right: the cells get
      `scope="col"` when the head closes and their alignment classes when the
      table closes. */
  lemma TableCellsAligned(a: string, b: string)
    ensures Render(HeaderTableEvents(a, b)) == Ok(Single(AlignedHeaderTable(a, b)))
  {
    var evs := HeaderTableEvents(a, b);
    var scoped := Element("th", map[], [Elem(ScopedCell(a)), Elem(ScopedCell(b))]);
    var table := AddChild(TableTag(), Elem(scoped));
    HeaderTableOpens(a, b);
    HeaderTableFirstCell(a, b);
    HeaderTableSecondCell(a, b, AddChild(NewTag("th"), Elem(Cell(a))));
    HeadOfTwo(a, b);
    HeaderTableHeadStep(a, b);
    HeaderTableCloses(a, b, table);
    CloseRootStep(table, Table([Left, Right]), AlignedHeaderTable(a, b));
    RunFrom(Machine([table], []), evs, 9, Machine([], [AlignedHeaderTable(a, b)]));
    RunDone(Machine([], [AlignedHeaderTable(a, b)]), evs);
  }

  lemma HeaderTableHeadStep(a: string, b: string)
    ensures Run(Machine([TableTag(), Element("th", map[], [Elem(Cell(a)), Elem(Cell(b))])], []), HeaderTableEvents(a, b)[8..]) ==
            Run(Machine([AddChild(TableTag(), Elem(Element("th", map[], [Elem(ScopedCell(a)), Elem(ScopedCell(b))])))], []),
                HeaderTableEvents(a, b)[9..])
  {
    var evs := HeaderTableEvents(a, b);
    var head := Element("th", map[], [Elem(Cell(a)), Elem(Cell(b))]);
    var scoped := Element("th", map[], [Elem(ScopedCell(a)), Elem(ScopedCell(b))]);
    var table := AddChild(TableTag(), Elem(scoped));
    HeaderTableHeadCloses(a, b);
    CloseStep([], TableTag(), head, TableHead, scoped);
    assert [] + [TableTag(), head] == [TableTag(), head] && [] + [table] == [table];
    RunFrom(Machine([TableTag(), head], []), evs, 8, Machine([table], []));
  }

  function ExtraCellEvents(x: string): seq<Event> {
    [Start(Table([])), Start(TableRow), Start(TableCell), Text(x), End(TableCell), End(TableRow), End(Table([]))]
  }

  lemma ExtraCellOpens(x: string)
    ensures Run(Machine([], []), ExtraCellEvents(x)) ==
            Run(Machine([TableTag(), NewTag("tr")], []), ExtraCellEvents(x)[2..])
  {
    var evs := ExtraCellEvents(x);
    var table, tr0 := TableTag(), NewTag("tr");
    OpenStep([], Table([]), table);
    assert [] + [table] == [table];
    RunFrom(Machine([], []), evs, 0, Machine([table], []));
    OpenStep([table], TableRow, tr0);
    assert [table] + [tr0] == [table, tr0];
    RunFrom(Machine([table], []), evs, 1, Machine([table, tr0], []));
    assert evs[0..] == evs;
  }

  lemma ExtraCellFilled(x: string)
    ensures Run(Machine([TableTag(), NewTag("tr")], []), ExtraCellEvents(x)[2..]) ==
            Run(Machine([TableTag(), AddChild(NewTag("tr"), Elem(Cell(x)))], []), ExtraCellEvents(x)[5..])
  {
    HeaderCell(ExtraCellEvents(x), 2, TableTag(), NewTag("tr"), x);
  }

  /** A row with more element cells than alignments panics when the table
      closes. */
  lemma ExtraCellPanics(x: string)
    ensures Render([Start(Table([])), Start(TableRow), Start(TableCell), Text(x), End(TableCell),
                    End(TableRow), End(Table([]))]) == Err(CellWithoutAlignment)
  {
    var evs := ExtraCellEvents(x);
    var table, tr := TableTag(), AddChild(NewTag("tr"), Elem(Cell(x)));
    var full := AddChild(table, Elem(tr));
    ExtraCellOpens(x);
    ExtraCellFilled(x);
    CloseStep([], table, tr, TableRow, tr);
    assert [] + [table, tr] == [table, tr] && [] + [full] == [full];
    RunFrom(Machine([table, tr], []), evs, 5, Machine([full], []));
    assert !TableFits(full, []) by {
      assert full.children[0].el.children[0].Elem?;
      assert !RowFits(full.children[0], []);
    }
    RunPanicsAt(Machine([full], []), evs, 6, CellWithoutAlignment);
  }

  // ---------------------------------------------------------------------------
  // `Markup::to_dom`.

  datatype Dom = RawHtml(innerHtml: string) | Markdown(rendered: Result<Rendered, Panic>)

  /** HTML text goes to the raw-HTML node verbatim, unparsed and unescaped;
      Markdown text is tokenized and rendered. */
  function ToDom(m: Markups.Markup, tokenize: string -> seq<Event>): (d: Dom)
    ensures m.lang == Markups.Html ==> d == RawHtml(m.text)
    ensures m.lang == Markups.Md ==> d == Markdown(Render(tokenize(m.text)))
  {
    match m.lang
    case Html => RawHtml(m.text)
    case Md => Markdown(Render(tokenize(m.text)))
  }
}
