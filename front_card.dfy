/** A card of front/src/components/card.rs: its presentation mode, content
    and title, the reducer over them, and `card_with`, which fetches a card
    from its document's table or creates it there. */
module FrontCard {
  import opened Outcomes
  import Markups
  import opened FrontData

  /** `card::Id`, a signed 64-bit integer. */
  newtype i64 = x: int | -0x8000_0000_0000_0000 <= x < 0x8000_0000_0000_0000

  datatype State = State(mode: Presentation, content: Markups.Markup, title: string)

  /** The actions. Whether focus moved to a node inside the same card is
      found by walking the DOM; it is given as a flag. */
  datatype Action = Mode(mode: Presentation) | Content(content: Markups.Markup) | Title(title: string) | DoubleClick | Blur(focusInCard: bool)

  /** `State::default`: shown, with the default markup and title `Section`. */
  function Default(): (s: State)
    ensures s.mode == View && s.content == Markups.DefaultMarkup() && s.title == "Section"
  {
    State(View, Markups.DefaultMarkup(), "Section")
  }

  /** `with_mode`, `with_content`, `with_title`: one field replaced, the
      others kept. */
  function WithMode(st: State, mode: Presentation): (r: State)
    ensures r.mode == mode && r.content == st.content && r.title == st.title
  {
    State(mode, st.content, st.title)
  }

  function WithModeView(st: State): (r: State)
    ensures r == WithMode(st, View)
    ensures r.mode == View && r.content == st.content && r.title == st.title
  {
    WithMode(st, View)
  }

  function WithContent(st: State, content: Markups.Markup): (r: State)
    ensures r.mode == st.mode && r.content == content && r.title == st.title
  {
    State(st.mode, content, st.title)
  }

  function WithTitle(st: State, title: string): (r: State)
    ensures r.mode == st.mode && r.content == st.content && r.title == title
  {
    State(st.mode, st.content, title)
  }

  /** The reducer. Content and title are replaced unconditionally and keep
      the mode; the mode moves exactly as a plain card's does in
      front/src/data.rs. */
  function Reduce(st: State, action: Action): (r: State)
    ensures action.Content? ==> r == WithContent(st, action.content)
    ensures action.Title? ==> r == WithTitle(st, action.title)
    ensures action.Mode? && st.mode == action.mode ==> r == st
    ensures !action.Content? && !action.Title? ==> r.content == st.content && r.title == st.title
  {
    match action
    case Mode(mode) => if st.mode == mode then st else WithMode(st, mode)
    case Content(content) => WithContent(st, content)
    case Title(title) => WithTitle(st, title)
    case DoubleClick => if st.mode == View then WithMode(st, Edit) else st
    case Blur(focusInCard) => if focusInCard then st else WithModeView(st)
  }

  /** The mode-only part of an action, as front/src/action.rs's `Card`. */
  function ModeAction(action: Action): (m: Option<CardAction>)
    ensures m.None? <==> action.Content? || action.Title?
  {
    match action
    case Mode(mode) => Some(CardAction.Mode(mode))
    case Content(_) => None
    case Title(_) => None
    case DoubleClick => Some(CardAction.DoubleClick)
    case Blur(focusInCard) => Some(CardAction.Blur(focusInCard))
  }

  /** The mode of this card follows the plain card's machine in
      front/src/data.rs; content and title actions leave it alone. */
  lemma ModeFollowsCardReduce(st: State, action: Action)
    ensures ModeAction(action).Some? ==>
              Reduce(st, action).mode == CardReduce(Card(st.mode), ModeAction(action).value).mode
    ensures ModeAction(action).None? ==> Reduce(st, action).mode == st.mode
  {
  }

  /** A double click always ends in Edit, losing focus to outside the card
      always ends in View, and each action done twice is done once. */
  lemma ReduceSettles(st: State, action: Action)
    ensures action.DoubleClick? ==> Reduce(st, action).mode == Edit
    ensures action.Blur? && !action.focusInCard ==> Reduce(st, action).mode == View
    ensures Reduce(Reduce(st, action), action) == Reduce(st, action)
  {
  }

  /** One document's cards, by card id. */
  class CardTable {
    var cards: map<i64, State>

    constructor Empty()
      ensures cards == map[]
    {
      cards := map[];
    }

    /** `card_with`: an existing card is handed back shown rather than
        edited, and the table is unchanged; a missing one is first entered
        as the default card. */
    method CardWith(cardId: i64) returns (s: State)
      modifies this
      ensures cardId in old(cards) ==> cards == old(cards) && s == WithModeView(old(cards)[cardId])
      ensures cardId !in old(cards) ==> cards == old(cards)[cardId := Default()] && s == Default()
      ensures cardId in cards && s == WithModeView(cards[cardId])
    {
      if cardId in cards {
        s := WithModeView(cards[cardId]);
      } else {
        cards := cards[cardId := Default()];
        s := WithModeView(Default());
      }
    }
  }
}
