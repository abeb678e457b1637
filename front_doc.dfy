/** The document page of front/src/components/doc.rs: the document's own
    entry (`Decl`), whether it is being edited, and its cards by id. The
    entry and the cards have the shapes of front/src/data.rs's `ProjDoc` and
    `DocCard`, with the same `with_id` defaults and the same order-only
    comparison, so those definitions are used here. */
module FrontDoc {
  import opened Chars
  import QueryId
  import Markups
  import Storage
  import opened FrontData

  type Decl = ProjDoc

  datatype State = State(id: QueryId.Doc, decl: Decl, declMode: Presentation, children: map<QueryId.Card, DocCard>)

  datatype Action =
    | Add(card: QueryId.Card)
    | CardTitle(titled: QueryId.Card, title: string)
    | CardContent(edited: QueryId.Card, content: Markups.Markup)
    | DeclMode(mode: Presentation)

  /** `card_next`: the number of cards as the next value, under this
      document. */
  function CardNext(st: State): (c: QueryId.Card)
    ensures c.doc == st.id
    ensures |st.children| < TWO_POW_64 ==> c.value == |st.children|
  {
    NextCardId(st.id, |st.children|)
  }

  /** `own_children`: new cards, and the entry shown rather than edited. */
  function OwnChildren(st: State, children: map<QueryId.Card, DocCard>): (r: State)
    ensures r.id == st.id && r.decl == st.decl && r.children == children && r.declMode == View
  {
    State(st.id, st.decl, View, children)
  }

  /** `own_mode`: only the entry's mode changes. */
  function OwnMode(st: State, mode: Presentation): (r: State)
    ensures r.id == st.id && r.decl == st.decl && r.children == st.children && r.declMode == mode
  {
    State(st.id, st.decl, mode, st.children)
  }

  /** The state the reducer hands back. `Add` inserts the default card,
      replacing one with the same id; a title or content edit applies only
      to an existing card whose value differs, a title edit also leaving
      the entry's edit mode; `DeclMode` sets just the mode. */
  function Next(st: State, action: Action): (r: State)
    ensures r.id == st.id && r.decl == st.decl
    ensures action.Add? ==> r.children == st.children[action.card := DocCardWithId(action.card)] && r.declMode == st.declMode
    ensures action.CardTitle? ==>
              if RetitleApplies(st.children, action.titled, action.title)
              then r.children == st.children[action.titled := st.children[action.titled].(title := action.title)] &&
                   r.declMode == View
              else r == st
    ensures action.CardContent? ==>
              if RecontentApplies(st.children, action.edited, action.content)
              then r.children == st.children[action.edited := st.children[action.edited].(content := action.content)] &&
                   r.declMode == st.declMode
              else r == st
    ensures action.DeclMode? ==> r.children == st.children && r.declMode == action.mode
  {
    match action
    case Add(id) => st.(children := st.children[id := DocCardWithId(id)])
    case CardTitle(id, title) =>
      if RetitleApplies(st.children, id, title)
      then OwnChildren(st, st.children[id := st.children[id].(title := title)])
      else st
    case CardContent(id, content) =>
      if RecontentApplies(st.children, id, content)
      then st.(children := st.children[id := st.children[id].(content := content)])
      else st
    case DeclMode(mode) => OwnMode(st, mode)
  }

  /** The reducer: the next state, with the cards written through under the
      document's id whenever a card was added or edited. */
  method Reduce(store: Storage.Store<Value>, st: State, action: Action) returns (r: State)
    modifies store
    ensures r == Next(st, action)
    ensures Writes(st, action) ==> store.entries == old(store.entries)[QueryId.DocDisplay(st.id) := CardsValue(r.children)]
    ensures !Writes(st, action) ==> store.entries == old(store.entries)
  {
    match action {
      case Add(id) =>
        var state := st;
        state := state.(children := state.children[id := DocCardWithId(id)]);
        r := UpdChildren(store, state);
      case CardTitle(id, title) =>
        if RetitleApplies(st.children, id, title) {
          var children := st.children;
          children := children[id := children[id].(title := title)];
          var state := OwnChildren(st, children);
          r := UpdChildren(store, state);
        } else {
          r := st;
        }
      case CardContent(id, content) =>
        if RecontentApplies(st.children, id, content) {
          var state := st;
          state := state.(children := state.children[id := state.children[id].(content := content)]);
          r := UpdChildren(store, state);
        } else {
          r := st;
        }
      case DeclMode(mode) =>
        r := OwnMode(st, mode);
    }
  }

  /** Whether an action writes the cards back. */
  predicate Writes(st: State, action: Action) {
    match action
    case Add(_) => true
    case CardTitle(id, title) => RetitleApplies(st.children, id, title)
    case CardContent(id, content) => RecontentApplies(st.children, id, content)
    case DeclMode(_) => false
  }

  /** `doc_upd_children` for the page's state: the cards go to the store
      under the document's id. */
  method UpdChildren(store: Storage.Store<Value>, state: State) returns (r: State)
    modifies store
    ensures r == state
    ensures store.entries == old(store.entries)[QueryId.DocDisplay(state.id) := CardsValue(state.children)]
  {
    store.Set(QueryId.DocDisplay(state.id), CardsValue(state.children));
    r := state;
  }

  /** The cards are numbered densely: each sits under its own id, belongs
      to this document and has a value below the count. */
  ghost predicate Dense(st: State) {
    forall c | c in st.children :: st.children[c].id == c && c.doc == st.id && c.value < |st.children|
  }

  /** Adding at `card_next` never replaces a card and keeps the numbering
      dense; every other action keeps the set of card ids and density. */
  lemma {:induction false} ActionsKeepDense(st: State, action: Action)
    requires Dense(st) && |st.children| < TWO_POW_64
    requires action.Add? ==> action.card == CardNext(st)
    ensures Dense(Next(st, action))
    ensures action.Add? ==> CardNext(st) !in st.children && |Next(st, action).children| == |st.children| + 1
    ensures !action.Add? ==> Next(st, action).children.Keys == st.children.Keys
  {
    var r := Next(st, action);
    match action {
      case Add(id) =>
        assert id.value == |st.children|;
        assert id !in st.children;
        assert r.children.Keys == st.children.Keys + {id};
      case CardTitle(id, title) =>
      case CardContent(id, content) =>
      case DeclMode(mode) =>
    }
  }

  /** `render_children_ord`: every card, in ascending order. */
  method Listing(st: State) returns (cards: seq<DocCard>)
    ensures Ascending(cards, (c: DocCard) => c.order as nat)
    ensures multiset(cards) == multiset(st.children.Values)
    ensures forall id | id in st.children :: st.children[id] in cards
  {
    cards := OrderedListing(st.children.Values, (c: DocCard) => c.order as nat);
    forall id | id in st.children
      ensures st.children[id] in cards
    {
      assert st.children[id] in st.children.Values;
      assert st.children[id] in multiset(cards);
    }
  }
}
