/** A section of front/src/components/sec.rs: a card whose only state is
    its presentation mode, and whose reducer is the plain card's of
    front/src/data.rs. */
module FrontSec {
  import opened Chars
  import QueryId
  import opened FrontData

  type State = Card

  /** The state a section starts in: shown. */
  function Initial(): (st: State)
    ensures st.mode == View
  {
    Card(View)
  }

  /** `with_mode` and `with_mode_view`. */
  function WithMode(st: State, mode: Presentation): (r: State)
    ensures r.mode == mode
  {
    Card(mode)
  }

  function WithModeView(st: State): (r: State)
    ensures r == WithMode(st, View) && r.mode == View
  {
    WithMode(st, View)
  }

  const ELEMENT_PREFIX := "card-"

  /** The section's element id: `card-` and the card's value in decimal. */
  function ElementId(id: QueryId.Card): (s: string)
    ensures ELEMENT_PREFIX <= s && AllDigits(s[5..]) && DigitsValue(s[5..]) == id.value
  {
    var s := ELEMENT_PREFIX + Decimal(id.value);
    assert s[5..] == Decimal(id.value);
    s
  }

  /** Element ids tell sections apart exactly by value: cards of different
      documents with the same value share one. */
  lemma ElementIdsByValue(a: QueryId.Card, b: QueryId.Card)
    ensures ElementId(a) == ElementId(b) <==> a.value == b.value
  {
    if ElementId(a) == ElementId(b) {
      assert ElementId(a)[5..] == ElementId(b)[5..];
    }
  }

  /** From the initial state, a double click opens the section for editing
      and losing focus to outside it closes it again. */
  lemma EditThenLeave()
    ensures CardReduce(Initial(), DoubleClick).mode == Edit
    ensures CardReduce(CardReduce(Initial(), DoubleClick), Blur(false)) == Initial()
  {
  }
}
