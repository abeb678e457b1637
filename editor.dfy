/** The `Edt` component of src/components/edt.rs: a markup being edited, the
    HTML last rendered from it, and a view/edit state switched by messages. */
module Editor {
  import opened VariantMarkup

  datatype EditorState = View | Edit
  datatype Msg = ViewMsg | EditMsg | Update(text: string)

  class Edt {
    var state: EditorState
    var markup: Markup
    var html: string

    /** `create`: viewing the default (empty Markdown) with no HTML yet. */
    constructor Create()
      ensures state == View && markup == DefaultMarkup() && html == []
    {
      state := View;
      markup := DefaultMarkup();
      html := [];
    }

    predicate IsView()
      reads this
    {
      state == View
    }

    /** `markup_to_html`: HTML text as it is, Markdown text through the foreign
        converter `convert`. */
    function MarkupToHtml(convert: string -> string): (h: string)
      reads this
      ensures markup.Html? ==> h == MarkupText(markup)
      ensures markup.Markdown? ==> h == convert(MarkupText(markup))
    {
      match markup
      case Html(t) => t
      case Markdown(t) => convert(t)
    }

    /** `update`: the returned flag asks for a re-render. */
    method Update(msg: Msg, convert: string -> string) returns (rerender: bool)
      modifies this
      ensures msg.ViewMsg? ==>
                state == View && markup == old(markup) &&
                html == old(MarkupToHtml(convert)) &&
                (rerender <==> old(MarkupToHtml(convert)) != old(html))
      ensures msg.EditMsg? ==>
                state == Edit && markup == old(markup) && html == old(html) && rerender
      ensures msg.Update? ==>
                markup == WithText(old(markup), msg.text) &&
                state == old(state) && html == old(html) && !rerender
      ensures IsView() <==> (msg.ViewMsg? || (msg.Update? && old(IsView())))
    {
      match msg {
        case ViewMsg =>
          state := View;
          var rendered := MarkupToHtml(convert);
          if rendered != html {
            html := rendered;
            rerender := true;
          } else {
            rerender := false;
          }
        case EditMsg =>
          state := Edit;
          rerender := true;
        case Update(text) =>
          markup := WithText(markup, text);
          rerender := false;
      }
    }
  }
}
