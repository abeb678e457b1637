/** The section list of one document, schling-front/src/components/sec_list.rs:
    its state is the document's body, and `Push` appends a fresh section head
    numbered after the current count and writes the document through. */
module SecList {
  import opened Chars
  import opened Outcomes
  import HexId
  import Storage
  import opened SchlingData

  datatype State = State(document: Doc)

  /** The head `Push` appends: id and order are the current count, cut to
      32 bits by `as u32`, the parent is the document, the title empty. */
  function NextSecHead(doc: Doc): (h: SecHead)
    ensures |doc.content| < TWO_POW_32 ==> h.id.value == |doc.content| && h.order == |doc.content|
    ensures h.id.doc == doc.head.id && h.title == ""
  {
    var n := |doc.content| % TWO_POW_32;
    Head(HexId.Sec(n, doc.head.id), n, "")
  }

  /** Every section head sits at the index its id and order name, under this
      document. */
  ghost predicate Numbered(doc: Doc) {
    forall i | 0 <= i < |doc.content| ::
      doc.content[i].id.value == i && doc.content[i].order == i && doc.content[i].id.doc == doc.head.id
  }

  /** `Action::Push`: one head appended, the rest and the document head
      untouched, the new body written under the document's key. */
  method Push(store: Storage.Store<Value>, st: State) returns (r: State)
    modifies store
    ensures r.document.head == st.document.head
    ensures r.document.content == st.document.content + [NextSecHead(st.document)]
    ensures store.entries == old(store.entries)[DocKey(st.document.head.id) := DocValue(r.document)]
  {
    var sections := st.document.content;
    var id := st.document.head.id;
    var secId := |sections| % TWO_POW_32;
    sections := sections + [Head(HexId.Sec(secId, id), secId, "")];
    var document := UpdateDoc(store, id, WithContent(st.document, sections));
    r := State(document);
  }

  /** `Push` keeps the numbering while fewer than 2^32 sections exist. */
  lemma PushKeepsNumbered(doc: Doc)
    requires Numbered(doc) && |doc.content| < TWO_POW_32
    ensures Numbered(WithContent(doc, doc.content + [NextSecHead(doc)]))
  {
  }

  /** At 2^32 sections the count wraps and the new head repeats the first
      one's id. */
  lemma PushWrapsAround(doc: Doc)
    requires Numbered(doc) && |doc.content| == TWO_POW_32
    ensures NextSecHead(doc).id == doc.content[0].id
  {
  }

  /** `new_document`: ordered and titled by its value, with no sections. */
  function NewDocument(id: HexId.Doc): (d: Doc)
    ensures d.head.id == id && d.head.order == id.value && d.content == [] && Numbered(d)
    ensures "Document " <= d.head.title && AllDigits(d.head.title[9..]) && DigitsValue(d.head.title[9..]) == id.value
  {
    var d := BodyOf(Head(id, id.value, "Document " + Decimal(id.value)), []);
    assert d.head.title[9..] == Decimal(id.value);
    d
  }

  /** The initial state: the stored document if it decodes, a new one
      otherwise. */
  function Initial(store: Storage.Store<Value>, id: HexId.Doc): (st: State)
    reads store
    ensures LoadDoc(store, id).Some? ==> st.document == LoadDoc(store, id).value
    ensures LoadDoc(store, id).None? ==> st.document == NewDocument(id)
  {
    match LoadDoc(store, id)
    case Some(doc) => State(doc)
    case None => State(NewDocument(id))
  }
}
