/** The markup value of common/src/markup.rs and back/src/markup.rs (the two
    files define it identically): a text tagged with the language it is
    written in, its constructors, `with_text`, the default, `Display` and the
    conversion back to the bare text. */
module Markups {
  import opened Outcomes

  datatype MarkupLang = Html | Md
  datatype Markup = Markup(text: string, lang: MarkupLang)

  /** `Markup::new`. */
  function New(text: string, lang: MarkupLang): (m: Markup)
    ensures IntoString(m) == text && m.lang == lang
  {
    Markup(text, lang)
  }

  /** `Markup::html` and `Markup::html_str` (a `&str` and a `String` are the same
      text here). */
  function HtmlMarkup(text: string): (m: Markup)
    ensures IntoString(m) == text && m.lang == Html
  {
    Markup(text, Html)
  }

  /** `Markup::md` and `Markup::md_str`. */
  function MdMarkup(text: string): (m: Markup)
    ensures IntoString(m) == text && m.lang == Md
  {
    Markup(text, Md)
  }

  /** `MarkupLang::with_text`: the same language, the new text. */
  function WithText(lang: MarkupLang, text: string): (m: Markup)
    ensures IntoString(m) == text && m.lang == lang
  {
    New(text, lang)
  }

  /** `Default`: empty Markdown (common derives it from `MarkupLang::default()`,
      back writes it out). */
  function DefaultLang(): (l: MarkupLang)
    ensures l == Md
  {
    Md
  }

  function DefaultMarkup(): (m: Markup)
    ensures IntoString(m) == [] && m.lang == Md
  {
    Markup([], DefaultLang())
  }

  /** `From<Markup> for String`: the bare text, the language dropped. */
  function IntoString(m: Markup): string { m.text }

  /** The hand-written `Clone` copies both fields. */
  function CloneMarkup(m: Markup): (c: Markup)
    ensures c == m
  {
    Markup(m.text, m.lang)
  }

  function LangDisplay(l: MarkupLang): string {
    match l
    case Html => "html"
    case Md => "md"
  }

  /** `Display`: the language's name, then the text in square brackets. */
  function MarkupDisplay(m: Markup): string {
    LangDisplay(m.lang) + "[" + m.text + "]"
  }

  /** Reads a displayed markup back: the inverse the `Display` form admits. */
  function ReadDisplay(s: string): Option<Markup> {
    if |s| >= 6 && s[..5] == "html[" && s[|s| - 1] == ']' then Some(Markup(s[5..|s| - 1], Html))
    else if |s| >= 4 && s[..3] == "md[" && s[|s| - 1] == ']' then Some(Markup(s[3..|s| - 1], Md))
    else None
  }

  lemma ReadDisplayInverts(m: Markup)
    ensures ReadDisplay(MarkupDisplay(m)) == Some(m)
  {
    var s := MarkupDisplay(m);
    match m.lang
    case Html =>
      assert s[..5] == "html[" && s[5..|s| - 1] == m.text;
    case Md =>
      assert s[..3] == "md[" && s[3..|s| - 1] == m.text;
      assert s[0] == 'm';
  }

  /** The displayed form determines the markup: reading it back gives the
      language and the text, so distinct markups display differently. */
  lemma DisplayRoundTrip(m: Markup, n: Markup)
    ensures ReadDisplay(MarkupDisplay(m)) == Some(m)
    ensures MarkupDisplay(m) == MarkupDisplay(n) ==> m == n
  {
    ReadDisplayInverts(m);
    ReadDisplayInverts(n);
  }

  /** `with_text` on a markup's own language and text rebuilds it, and the text
      it is given is the text it keeps. */
  lemma WithTextRebuilds(m: Markup)
    ensures WithText(m.lang, IntoString(m)) == m
    ensures CloneMarkup(m) == WithText(m.lang, m.text)
  {
  }
}
