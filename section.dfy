/** One section of a document, schling-front/src/components/sec.rs: a view or
    edit flag over the section's body. Edits of the title or the content are
    written through to the store. */
module Section {
  import opened Chars
  import opened Outcomes
  import HexId
  import Markups
  import Storage
  import opened SchlingData

  const SECTION_PREFIX := "section-"

  /** `section_id`: the prefix and the section's value in decimal. */
  function SectionId(id: HexId.Sec): (s: string)
    ensures SECTION_PREFIX <= s && AllDigits(s[8..]) && DigitsValue(s[8..]) == id.value
  {
    var s := SECTION_PREFIX + Decimal(id.value);
    assert s[8..] == Decimal(id.value);
    s
  }

  /** `section_content_id`: the prefix, `content-`, the value in decimal. */
  function SectionContentId(id: HexId.Sec): (s: string)
    ensures SECTION_PREFIX + "content-" <= s && AllDigits(s[16..]) && DigitsValue(s[16..]) == id.value
  {
    var s := SECTION_PREFIX + "content-" + Decimal(id.value);
    assert s[16..] == Decimal(id.value);
    s
  }

  /** Element ids tell sections apart by value, and a section's id is never a
      content id. */
  lemma ElementIdsDistinct(a: HexId.Sec, b: HexId.Sec)
    ensures SectionId(a) == SectionId(b) <==> a.value == b.value
    ensures SectionContentId(a) == SectionContentId(b) <==> a.value == b.value
    ensures SectionId(a) != SectionContentId(b)
  {
    if SectionId(a) == SectionId(b) {
      assert SectionId(a)[8..] == SectionId(b)[8..];
    }
    if SectionContentId(a) == SectionContentId(b) {
      assert SectionContentId(a)[16..] == SectionContentId(b)[16..];
    }
    assert IsDigit(SectionId(a)[8..][0]);
    assert SectionContentId(b)[8] == 'c';
  }

  datatype State = State(edit: bool, section: Sec)

  /** The reducer's input. A key press is given by its `key` string. */
  datatype Action = Edit | View | UpdTitle(title: string) | UpdContent(content: Markups.Markup) | ViewKeyPress(key: string)

  /** The reducer. Mode changes build a new state or hand back the same one;
      title and content edits are persisted under the section's own key. */
  method Reduce(store: Storage.Store<Value>, st: State, action: Action) returns (r: State)
    modifies store
    ensures action.Edit? ==> r == st.(edit := true)
    ensures action.View? ==> r == st.(edit := false)
    ensures action.ViewKeyPress? ==>
              r == (if action.key == " " || action.key == "Enter" then st.(edit := true) else st)
    ensures action.UpdTitle? ==>
              r.edit == st.edit && r.section == WithTitle(st.section, action.title) &&
              store.entries == old(store.entries)[SecKey(st.section.head.id) := SecValue(r.section)]
    ensures action.UpdContent? ==>
              r.edit == st.edit && r.section == WithContent(st.section, action.content) &&
              store.entries == old(store.entries)[SecKey(st.section.head.id) := SecValue(r.section)]
    ensures !action.UpdTitle? && !action.UpdContent? ==> store.entries == old(store.entries)
    ensures r.section.head.id == st.section.head.id && r.section.head.order == st.section.head.order
  {
    match action {
      case Edit =>
        r := if st.edit then st else State(true, st.section);
      case View =>
        r := if st.edit then State(false, st.section) else st;
      case UpdTitle(title) =>
        var section := UpdateSec(store, st.section.head.id, WithTitle(st.section, title));
        r := State(st.edit, section);
      case UpdContent(content) =>
        var section := UpdateSec(store, st.section.head.id, WithContent(st.section, content));
        r := State(st.edit, section);
      case ViewKeyPress(key) =>
        r := if key == " " || key == "Enter" then State(true, st.section) else st;
    }
  }

  /** `new_section`: ordered and titled by its value, empty Markdown content. */
  function NewSection(id: HexId.Sec): (s: Sec)
    ensures s.head.id == id && s.head.order == id.value && s.content == Markups.MdMarkup("")
    ensures "Section " <= s.head.title && AllDigits(s.head.title[8..]) && DigitsValue(s.head.title[8..]) == id.value
  {
    var s := BodyOf(Head(id, id.value, "Section " + Decimal(id.value)), Markups.MdMarkup(""));
    assert s.head.title[8..] == Decimal(id.value);
    s
  }

  /** The initial state: viewing the stored section, or a new one. */
  function Initial(store: Storage.Store<Value>, id: HexId.Sec): (st: State)
    reads store
    ensures !st.edit
    ensures LoadSec(store, id).Some? ==> st.section == LoadSec(store, id).value
    ensures LoadSec(store, id).None? ==> st.section == NewSection(id)
  {
    match LoadSec(store, id)
    case Some(sec) => State(false, sec)
    case None => State(false, NewSection(id))
  }
}
