/** The records and reducers of front/src/data.rs. A project maps document
    ids to document summaries; a document maps card ids to cards. Both are
    kept in the store under the id's query form (`proj=N`, `proj=N&doc=M`),
    created with defaults on first read. The pages of front/src/components
    share these shapes and the ordered listing at the end. */
module FrontData {
  import opened Chars
  import opened Outcomes
  import QueryId
  import Markups
  import Storage

  /** `Presentation`: how a title or card is shown. */
  datatype Presentation = View | Edit

  /** A document as its project lists it. */
  datatype ProjDoc = ProjDoc(id: QueryId.Doc, title: string, summary: Markups.Markup, order: u64)

  datatype Proj = Proj(id: QueryId.Proj, children: map<QueryId.Doc, ProjDoc>)

  /** A card (section) as its document lists it. */
  datatype DocCard = DocCard(id: QueryId.Card, title: string, content: Markups.Markup, order: u64)

  datatype Doc = Doc(id: QueryId.Doc, title: string, titleMode: Presentation, children: map<QueryId.Card, DocCard>)

  /** A card's own view state. */
  datatype Card = Card(mode: Presentation)

  /** What the store holds under a key: a project, a document's cards, or
      text that decodes as neither. */
  datatype Value = ProjValue(proj: Proj) | CardsValue(cards: map<QueryId.Card, DocCard>) | Undecodable(json: string)

  datatype ProjAction = AddDoc(doc: QueryId.Doc)

  datatype DocAction =
    | AddCard(card: QueryId.Card)
    | CardTitle(titled: QueryId.Card, title: string)
    | CardContent(edited: QueryId.Card, content: Markups.Markup)
    | Title(newTitle: string)
    | TitleMode(mode: Presentation)

  /** A card's actions. Whether focus moved to a node inside the same card
      is found by walking the DOM; it is given as a flag. */
  datatype CardAction = Mode(mode: Presentation) | DoubleClick | Blur(focusInCard: bool)

  // ---------------------------------------------------------------------------
  // Defaults and next ids.

  /** `Proj::with_id`: no documents yet. */
  function ProjWithId(id: QueryId.Proj): (p: Proj)
    ensures p.id == id && p.children == map[]
  {
    Proj(id, map[])
  }

  /** The id `doc_next` hands out: the project's document count (`len() as
      u64`) under this project. */
  function NextDocId(proj: QueryId.Proj, count: nat): (d: QueryId.Doc)
    ensures d.proj == proj
    ensures count < TWO_POW_64 ==> d.value == count
  {
    QueryId.Doc(count % TWO_POW_64, proj)
  }

  /** The id `card_next` hands out: the document's card count under this
      document. */
  function NextCardId(doc: QueryId.Doc, count: nat): (c: QueryId.Card)
    ensures c.doc == doc
    ensures count < TWO_POW_64 ==> c.value == count
  {
    QueryId.Card(count % TWO_POW_64, doc)
  }

  /** `ProjDoc::with_id`: `Document <v>`, an empty Markdown summary, order
      `v`. */
  function ProjDocWithId(id: QueryId.Doc): (d: ProjDoc)
    ensures d.id == id && d.order == id.value && d.summary == Markups.MdMarkup("")
    ensures "Document " <= d.title && AllDigits(d.title[9..]) && DigitsValue(d.title[9..]) == id.value
  {
    var d := ProjDoc(id, "Document " + Decimal(id.value), Markups.MdMarkup(""), id.value);
    assert d.title[9..] == Decimal(id.value);
    d
  }

  /** `DocCard::with_id`: `Section <v>`, the default markup, order `v`. */
  function DocCardWithId(id: QueryId.Card): (c: DocCard)
    ensures c.id == id && c.order == id.value && c.content == Markups.DefaultMarkup()
    ensures "Section " <= c.title && AllDigits(c.title[8..]) && DigitsValue(c.title[8..]) == id.value
  {
    var c := DocCard(id, "Section " + Decimal(id.value), Markups.DefaultMarkup(), id.value);
    assert c.title[8..] == Decimal(id.value);
    c
  }

  /** `Ord for ProjDoc` and `Ord for DocCard`: by order alone. */
  function ProjDocCmp(a: ProjDoc, b: ProjDoc): (o: Ordering)
    ensures o == Equal <==> a.order == b.order
    ensures o == Less <==> a.order < b.order
  {
    CmpNat(a.order, b.order)
  }

  function DocCardCmp(a: DocCard, b: DocCard): (o: Ordering)
    ensures o == Equal <==> a.order == b.order
    ensures o == Less <==> a.order < b.order
  {
    CmpNat(a.order, b.order)
  }

  /** The documents of a project are numbered densely: each sits under its
      own id, belongs to this project and has a value below the count. */
  ghost predicate Dense(p: Proj) {
    forall d | d in p.children :: p.children[d].id == d && d.proj == p.id && d.value < |p.children|
  }

  /** Adding the next document never overwrites one, grows the project by
      exactly one and keeps the numbering dense. */
  lemma AddNextDocGrows(p: Proj)
    requires Dense(p) && |p.children| < TWO_POW_64
    ensures NextDocId(p.id, |p.children|) !in p.children
    ensures var next := NextDocId(p.id, |p.children|);
            var q := Proj(p.id, p.children[next := ProjDocWithId(next)]);
            |q.children| == |p.children| + 1 && Dense(q)
  {
  }

  // ---------------------------------------------------------------------------
  // Storage.

  /** `get_or_create` for a project: the stored project if it decodes,
      otherwise `Proj::with_id`, which is then stored. Either way the key
      afterwards holds the project returned. */
  method ProjGet(store: Storage.Store<Value>, id: QueryId.Proj) returns (p: Proj)
    modifies store
    ensures p == StoredProj(old(store.entries), id)
    ensures store.entries == old(store.entries)[QueryId.ProjDisplay(id) := ProjValue(p)]
  {
    var key := QueryId.ProjDisplay(id);
    match store.Get(key) {
      case Some(ProjValue(stored)) =>
        p := stored;
        assert store.entries == store.entries[key := ProjValue(p)];
      case _ =>
        p := ProjWithId(id);
        store.Set(key, ProjValue(p));
    }
  }

  /** The project a read of `id` yields from `entries`. */
  function StoredProj(entries: map<string, Value>, id: QueryId.Proj): Proj {
    var key := QueryId.ProjDisplay(id);
    if key in entries && entries[key].ProjValue? then entries[key].proj else ProjWithId(id)
  }

  /** `get_or_create` for a document's cards: the stored map if it decodes,
      otherwise an empty one, which is then stored. */
  method CardsGet(store: Storage.Store<Value>, id: QueryId.Doc) returns (cards: map<QueryId.Card, DocCard>)
    modifies store
    ensures cards == StoredCards(old(store.entries), id)
    ensures store.entries == old(store.entries)[QueryId.DocDisplay(id) := CardsValue(cards)]
  {
    var key := QueryId.DocDisplay(id);
    match store.Get(key) {
      case Some(CardsValue(stored)) =>
        cards := stored;
        assert store.entries == store.entries[key := CardsValue(cards)];
      case _ =>
        cards := map[];
        store.Set(key, CardsValue(cards));
    }
  }

  function StoredCards(entries: map<string, Value>, id: QueryId.Doc): map<QueryId.Card, DocCard> {
    var key := QueryId.DocDisplay(id);
    if key in entries && entries[key].CardsValue? then entries[key].cards else map[]
  }

  /** A project's key and its documents' keys never collide. */
  lemma KeysDistinct(p: QueryId.Proj, d: QueryId.Doc)
    ensures QueryId.ProjDisplay(p) != QueryId.DocDisplay(d)
  {
    var pk := QueryId.ProjDisplay(p);
    var tail := QueryId.DOC_TAG + Decimal(d.value);
    assert tail[0] == '&';
    QueryId.ProjFormParses(p, []);
    assert pk + [] == pk;
    QueryId.ProjFormParses(d.proj, tail);
    assert QueryId.DocDisplay(d) == QueryId.ProjDisplay(d.proj) + tail;
    // Parsing a project id out of the document's key leaves its tag behind.
    assert QueryId.ParseProjId(pk).rest == [] != tail == QueryId.ParseProjId(QueryId.ProjDisplay(d.proj) + tail).rest;
  }

  /** `proj_upd`: the project is stored under its id. */
  method ProjUpd(store: Storage.Store<Value>, state: Proj) returns (r: Proj)
    modifies store
    ensures r == state
    ensures store.entries == old(store.entries)[QueryId.ProjDisplay(state.id) := ProjValue(state)]
  {
    store.Set(QueryId.ProjDisplay(state.id), ProjValue(state));
    r := state;
  }

  /** `doc_upd_children`: only the cards are stored, under the document's id. */
  method DocUpdChildren(store: Storage.Store<Value>, state: Doc) returns (r: Doc)
    modifies store
    ensures r == state
    ensures store.entries == old(store.entries)[QueryId.DocDisplay(state.id) := CardsValue(state.children)]
  {
    store.Set(QueryId.DocDisplay(state.id), CardsValue(state.children));
    r := state;
  }

  /** The title `doc_get` shows: the project's entry for the document if there
      is one, `Document <v>` otherwise. */
  function DocTitle(p: Proj, id: QueryId.Doc): (t: string)
    ensures id in p.children ==> t == p.children[id].title
    ensures id !in p.children ==> t == ProjDocWithId(id).title
  {
    if id in p.children then p.children[id].title else "Document " + Decimal(id.value)
  }

  /** `doc_get`: the cards as stored (or none), the title from the project,
      in View mode. Both reads create what is missing. */
  method DocGet(store: Storage.Store<Value>, id: QueryId.Doc) returns (d: Doc)
    modifies store
    ensures d.id == id && d.titleMode == View
    ensures d.children == StoredCards(old(store.entries), id)
    ensures d.title == DocTitle(StoredProj(old(store.entries), id.proj), id)
    ensures store.entries == old(store.entries)[QueryId.DocDisplay(id) := CardsValue(d.children)]
                                               [QueryId.ProjDisplay(id.proj) := ProjValue(StoredProj(old(store.entries), id.proj))]
  {
    var children := CardsGet(store, id);
    KeysDistinct(id.proj, id);
    var proj := ProjGet(store, id.proj);
    var title := DocTitle(proj, id);
    d := Doc(id, title, View, children);
  }

  /** The project's entry for a retitled document: an existing entry keeps
      everything but its title; a missing one is created with an empty
      summary and ordered by the document's value. */
  function UpsertTitle(p: Proj, id: QueryId.Doc, title: string): (q: Proj)
    ensures q.id == p.id && id in q.children && q.children[id].title == title
    ensures id in p.children ==> q.children[id] == p.children[id].(title := title)
    ensures id !in p.children ==> q.children[id] == ProjDoc(id, title, Markups.MdMarkup(""), id.value)
    ensures forall k | k != id :: (k in q.children <==> k in p.children) && (k in p.children ==> q.children[k] == p.children[k])
  {
    if id in p.children then Proj(p.id, p.children[id := p.children[id].(title := title)])
    else Proj(p.id, p.children[id := ProjDoc(id, title, Markups.MdMarkup(""), id.value)])
  }

  /** The store after `doc_upd_title`: the project read (or created) is
      stored back under the id asked for, and the retitled project under its
      own id, which is the same key unless the stored record disagrees with
      the key it was found under. */
  function Retitled(entries: map<string, Value>, id: QueryId.Doc, title: string): map<string, Value> {
    var p := StoredProj(entries, id.proj);
    var q := UpsertTitle(p, id, title);
    entries[QueryId.ProjDisplay(id.proj) := ProjValue(p)][QueryId.ProjDisplay(q.id) := ProjValue(q)]
  }

  /** `doc_upd_title`: the project (read, or created) gets the document's
      title, and is stored; the document is handed back unchanged. */
  method DocUpdTitle(store: Storage.Store<Value>, state: Doc) returns (r: Doc)
    modifies store
    ensures r == state
    ensures store.entries == Retitled(old(store.entries), state.id, state.title)
  {
    var proj := ProjGet(store, state.id.proj);
    proj := UpsertTitle(proj, state.id, state.title);
    var _ := ProjUpd(store, proj);
    r := state;
  }

  /** When the project under a key carries that key's id (it always does
      unless the store was written by other means), retitling a document
      replaces just that project, and reading it back shows the new title
      and leaves the other documents' entries as they were. */
  lemma RetitledReadsBack(entries: map<string, Value>, id: QueryId.Doc, title: string)
    requires StoredProj(entries, id.proj).id == id.proj
    ensures var q := UpsertTitle(StoredProj(entries, id.proj), id, title);
            Retitled(entries, id, title) == entries[QueryId.ProjDisplay(id.proj) := ProjValue(q)]
    ensures var after := StoredProj(Retitled(entries, id, title), id.proj);
            id in after.children && after.children[id].title == title &&
            forall d | d != id && d in after.children :: d in StoredProj(entries, id.proj).children &&
              after.children[d] == StoredProj(entries, id.proj).children[d]
  {
  }

  // ---------------------------------------------------------------------------
  // Reducers.

  /** The project reducer: `Add(id)` inserts the default entry for `id`,
      replacing any entry already there, and stores the project. */
  method ProjReduce(store: Storage.Store<Value>, st: Proj, action: ProjAction) returns (r: Proj)
    modifies store
    ensures r.id == st.id && r.children == st.children[action.doc := ProjDocWithId(action.doc)]
    ensures store.entries == old(store.entries)[QueryId.ProjDisplay(st.id) := ProjValue(r)]
  {
    var state := st;
    state := state.(children := state.children[action.doc := ProjDocWithId(action.doc)]);
    r := ProjUpd(store, state);
  }

  /** The card edit a document applies: the card exists and the new value
      differs from the one it has. */
  predicate RetitleApplies(cards: map<QueryId.Card, DocCard>, id: QueryId.Card, title: string) {
    id in cards && cards[id].title != title
  }

  predicate RecontentApplies(cards: map<QueryId.Card, DocCard>, id: QueryId.Card, content: Markups.Markup) {
    id in cards && cards[id].content != content
  }

  /** The document reducer. */
  method DocReduce(store: Storage.Store<Value>, st: Doc, action: DocAction) returns (r: Doc)
    modifies store
    ensures r.id == st.id
    ensures action.AddCard? ==>
              r == st.(children := st.children[action.card := DocCardWithId(action.card)]) &&
              store.entries == old(store.entries)[QueryId.DocDisplay(st.id) := CardsValue(r.children)]
    ensures action.CardTitle? && RetitleApplies(st.children, action.titled, action.title) ==>
              r == st.(children := st.children[action.titled := st.children[action.titled].(title := action.title)],
                       titleMode := View) &&
              store.entries == old(store.entries)[QueryId.DocDisplay(st.id) := CardsValue(r.children)]
    ensures action.CardContent? && RecontentApplies(st.children, action.edited, action.content) ==>
              r == st.(children := st.children[action.edited := st.children[action.edited].(content := action.content)]) &&
              store.entries == old(store.entries)[QueryId.DocDisplay(st.id) := CardsValue(r.children)]
    ensures action.Title? && st.title != action.newTitle ==>
              r == st.(title := action.newTitle, titleMode := View) &&
              store.entries == Retitled(old(store.entries), st.id, action.newTitle)
    ensures action.TitleMode? ==> r == st.(titleMode := action.mode) && store.entries == old(store.entries)
    ensures (action.CardTitle? && !RetitleApplies(st.children, action.titled, action.title)) ||
            (action.CardContent? && !RecontentApplies(st.children, action.edited, action.content)) ||
            (action.Title? && st.title == action.newTitle) ==>
              r == st && store.entries == old(store.entries)
  {
    match action {
      case AddCard(id) =>
        var state := st.(children := st.children[id := DocCardWithId(id)]);
        r := DocUpdChildren(store, state);
      case CardTitle(id, title) =>
        if RetitleApplies(st.children, id, title) {
          var children := st.children;
          children := children[id := children[id].(title := title)];
          var state := Doc(st.id, st.title, View, children);
          r := DocUpdChildren(store, state);
        } else {
          r := st;
        }
      case CardContent(id, content) =>
        if RecontentApplies(st.children, id, content) {
          var state := st;
          state := state.(children := state.children[id := state.children[id].(content := content)]);
          r := DocUpdChildren(store, state);
        } else {
          r := st;
        }
      case Title(title) =>
        if st.title != title {
          var state := Doc(st.id, title, View, st.children);
          r := DocUpdTitle(store, state);
        } else {
          r := st;
        }
      case TitleMode(mode) =>
        r := st.(titleMode := mode);
    }
  }

  /** The card reducer (also the section's in front/src/components/sec.rs):
      a new mode replaces a different one, a double click always ends in
      Edit, and losing focus to outside the card ends in View. */
  function CardReduce(st: Card, action: CardAction): (r: Card)
    ensures action.Mode? ==> r.mode == action.mode
    ensures action.DoubleClick? ==> r.mode == Edit
    ensures action.Blur? ==> r.mode == (if action.focusInCard then st.mode else View)
  {
    match action
    case Mode(mode) => if st.mode == mode then st else Card(mode)
    case DoubleClick => if st.mode == View then Card(Edit) else assert st.mode == Edit; st
    case Blur(focusInCard) => if focusInCard then st else Card(View)
  }

  /** Every card action is idempotent: dispatching it twice is dispatching
      it once. */
  lemma CardReduceIdempotent(st: Card, action: CardAction)
    ensures CardReduce(CardReduce(st, action), action) == CardReduce(st, action)
  {
  }

  // ---------------------------------------------------------------------------
  // The ordered listing.

  /** Ascending by `order`, ties allowed. */
  predicate Ascending<T>(list: seq<T>, order: T -> nat) {
    forall i, j | 0 <= i < j < |list| :: order(list[i]) <= order(list[j])
  }

  /** `BTreeSet::from_iter(children.values())`: the values are collected,
      stably sorted by the order-only `Ord`, and bulk-built; only neighbours
      that are `==` in every field are merged, so every entry is listed, ties
      by order included. Ties keep the map's iteration order, which is
      unspecified, so it is chosen freely here. */
  method OrderedListing<T(==)>(values: set<T>, order: T -> nat) returns (list: seq<T>)
    ensures Ascending(list, order)
    ensures multiset(list) == multiset(values)
  {
    list := [];
    var todo := values;
    while todo != {}
      invariant todo <= values
      invariant Ascending(list, order)
      invariant multiset(list) == multiset(values - todo)
      decreases |todo|
    {
      var v :| v in todo;
      list := InsertStable(list, v, order);
      assert values - (todo - {v}) == (values - todo) + {v};
      todo := todo - {v};
    }
  }

  /** One step of the stable sort: the value goes after every entry whose
      order is not above its own. */
  method InsertStable<T(==)>(list: seq<T>, v: T, order: T -> nat) returns (r: seq<T>)
    requires Ascending(list, order)
    ensures Ascending(r, order)
    ensures multiset(r) == multiset(list) + multiset{v}
  {
    var i := 0;
    while i < |list| && order(list[i]) <= order(v)
      invariant 0 <= i <= |list|
      invariant forall j | 0 <= j < i :: order(list[j]) <= order(v)
    {
      i := i + 1;
    }
    r := list[..i] + [v] + list[i..];
    InsertedAscending(list, i, v, order);
    assert list == list[..i] + list[i..];
  }

  /** Placing `v` after the entries of order up to its own and before the
      first entry of higher order keeps a list ascending. */
  lemma InsertedAscending<T>(list: seq<T>, i: nat, v: T, order: T -> nat)
    requires Ascending(list, order) && i <= |list|
    requires forall j | 0 <= j < i :: order(list[j]) <= order(v)
    requires i < |list| ==> order(v) < order(list[i])
    ensures Ascending(list[..i] + [v] + list[i..], order)
  {
    var r := list[..i] + [v] + list[i..];
    forall a, b | 0 <= a < b < |r|
      ensures order(r[a]) <= order(r[b])
    {
      if b < i {
        assert r[a] == list[a] && r[b] == list[b];
      } else if a > i {
        assert r[a] == list[a - 1] && r[b] == list[b - 1];
      } else if a == i {
        assert r[a] == v && r[b] == list[b - 1];
      } else if b == i {
        assert r[a] == list[a] && r[b] == v;
      } else {
        assert r[a] == list[a] && r[b] == list[b - 1];
      }
    }
  }
}
