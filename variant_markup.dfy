/** The two-variant markup enum of src/markup.rs, which src/components/edt.rs
    declares again with the same variants: the text is either HTML or
    Markdown, and the variant is kept when the text is replaced. */
module VariantMarkup {
  import opened Outcomes

  datatype Markup = Html(text: string) | Markdown(text: string)

  /** `markup()` (src/markup.rs) and `to_string()` (edt.rs): the inner text of
      either variant. */
  function MarkupText(m: Markup): string { m.text }

  /** `with_text`: the same variant around the new text. */
  function WithText(m: Markup, text: string): (r: Markup)
    ensures r.Html? <==> m.Html?
    ensures MarkupText(r) == text
  {
    match m
    case Html(_) => Html(text)
    case Markdown(_) => Markdown(text)
  }

  /** edt.rs's `Default`: empty Markdown. */
  function DefaultMarkup(): (m: Markup)
    ensures m.Markdown? && MarkupText(m) == []
  {
    Markdown([])
  }

  /** `Display` (src/markup.rs): the variant's name, then the text in parentheses. */
  function MarkupDisplay(m: Markup): string {
    match m
    case Html(t) => "Html(" + t + ")"
    case Markdown(t) => "Markdown(" + t + ")"
  }

  /** Reads a displayed markup back: the inverse the `Display` form admits. */
  function ReadDisplay(s: string): Option<Markup> {
    if |s| >= 6 && s[..5] == "Html(" && s[|s| - 1] == ')' then Some(Html(s[5..|s| - 1]))
    else if |s| >= 10 && s[..9] == "Markdown(" && s[|s| - 1] == ')' then Some(Markdown(s[9..|s| - 1]))
    else None
  }

  lemma ReadDisplayInverts(m: Markup)
    ensures ReadDisplay(MarkupDisplay(m)) == Some(m)
  {
    var s := MarkupDisplay(m);
    match m
    case Html(t) =>
      assert s[..5] == "Html(" && s[5..|s| - 1] == t;
    case Markdown(t) =>
      assert s[..9] == "Markdown(" && s[9..|s| - 1] == t;
      assert s[0] == 'M';
  }

  /** The display determines the markup, variant included: the same text as
      HTML and as Markdown are different values and display differently. */
  lemma DisplayDistinguishes(m: Markup, n: Markup, s: string)
    ensures MarkupDisplay(m) == MarkupDisplay(n) ==> m == n
    ensures Html(s) != Markdown(s) && MarkupDisplay(Html(s)) != MarkupDisplay(Markdown(s))
  {
    ReadDisplayInverts(m);
    ReadDisplayInverts(n);
    ReadDisplayInverts(Html(s));
    ReadDisplayInverts(Markdown(s));
  }

  /** `to_html`: HTML text goes to the DOM parser unchanged, Markdown text is
      converted to HTML first; both the conversion and the parser are foreign
      and passed in, and a parser failure is the result's error. */
  function ToHtml<D>(m: Markup, convert: string -> string, parse: string -> Result<D, string>): (r: Result<D, string>)
    ensures m.Html? ==> r == parse(MarkupText(m))
    ensures m.Markdown? ==> r == parse(convert(MarkupText(m)))
  {
    var html := match m
      case Html(t) => t
      case Markdown(t) => convert(t);
    parse(html)
  }

  /** Replacing the text with the markup's own text changes nothing. */
  lemma WithOwnText(m: Markup, t: string, u: string)
    ensures WithText(m, MarkupText(m)) == m
    ensures WithText(WithText(m, t), u) == WithText(m, u)
  {
  }
}
