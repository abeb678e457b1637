# Schmetterling core, modelled in Dafny

Schmetterling is a browser-based editor of projects, documents and sections
(also called cards). It was written several times over, so its repository
holds more than one front-end (`src`, `front`, `schling-front`) and more than
one shared library (`common`, `schling-common`). This project models the
logic those layers share, and proves what it promises:

- **Hierarchical ids.** A project, a document inside it and a section inside
  that each have an id, in three schemes.
  - `HexId` (schling-common/src/id.rs) writes eight upper-case hex digits per
    level.
  - `CommonId` (common/src/id.rs) has the same parsers. Its decimal `Display`
    is woven into its `String` form and its serde path.
  - `QueryId` (front/src/id.rs) is the `proj=N&doc=N&card=N` query form.
  - `Chars` holds the digit helpers the three share.
- **Markup.** `Markups` is the language-tagged text of common/src/markup.rs.
  back/src/markup.rs defines the same value, so `Markups` covers both.
  `MarkdownRender` is common/src/markup.rs's `render_markdown`: a stack
  machine over Markdown events that builds a DOM tree. It includes `make_tag`,
  `add_class` and the table post-processing.
  `VariantMarkup` is the two-variant enum of src/markup.rs and
  src/components/edt.rs. `Editor` is that file's `Edt` component state.
- **Keys.** `Keys` is schling-common/src/key.rs: the sorted `KeyStack` with
  its binary search, the hotkey table of `KeyContext` and the subscriber set
  of `KeyRegistrar`.
- **Quoted literals.** `Source` is schling-common/src/source.rs: the six
  delimited-literal parsers, `parse_quote`, and the `Text` and `Line` helpers.
- **Tab editing.** `TextArea` is schling-front/src/components/textarea.js: a
  class whose fields are the textarea's value, its selection and the
  modifier-key flags. It covers `addTab`, `removeTab` (its loop kept as a
  loop) and the key listeners.
- **Stored records and reducers.** `Storage` is the browser's LocalStorage as
  a string-keyed map.
  - `SchlingData`, `SecList` and `Section` are schling-front's records, keys
    and reducers.
  - `FrontData`, `FrontDoc`, `FrontProj`, `FrontCard` and `FrontSec` are
    front's.
  - The page components of front/src/components define types with the same
    fields, defaults and order as front/src/data.rs: proj.rs's `State` and
    `Doc`, and doc.rs's `Decl` and `Card`. These are modelled once, in
    `FrontData`, whose rows also name the pages' lines.

Reading the code settled these questions:
- The source contradicts itself in a few places:
  - front/src/data.rs's `doc_get` builds a `Doc` that front/src/components/doc.rs uses as its own `State`.
  - proj.rs reduces a `data::Proj` as its `State`.
  - src/components/edt.rs:101 does not compile.
  - schling-front/src/components/sec_list.rs:28 calls an `id::Sec::new` that schling-common/src/id.rs does not define.

  The model follows the evident intent of each.
- The unit tests at schling-common/src/source.rs:196-204 expect an empty
  literal, an escaped quote and a leading space to parse. The code refuses all
  three. The model follows the code: `Source.EmptyStrRejected` and
  `Source.EscapedQuoteRejected` prove the refusals.
- `removeTab` counts line lengths without their newlines when it looks for
  the cursor's line. The model keeps this as written, and
  `TextArea.StripsLaterLine` shows its effect.

## Model

| member | source | states |
|---|---|---|
| Chars.UpperHexChar | schling-common/src/id.rs:42 | the upper-case digit `{:X}` writes for a value below 16 is a hex digit whose value is that value |
| Chars.HexValueBound | schling-common/src/id.rs:62-64 | `n` hex digits never denote more than 16^n - 1 |
| Chars.Hex8Fits | schling-common/src/id.rs:62-68 | eight hex digits always fit a `u32`, so `from_hex8` never overflows on what `take_while_m_n(8, 8, ..)` hands it |
| Chars.HexDigitsRoundTrip | schling-common/src/id.rs:40-44 | the zero-padded upper-case hex digits of a value below 16^n read back as that value |
| Chars.Hex8 | schling-common/src/id.rs:42 | `{:08X}` is exactly eight upper-case hex digits whose value is the argument |
| Chars.Hex8Injective | schling-common/src/id.rs:40-44 | distinct values give distinct eight-digit tokens, and equal ones equal tokens |
| Chars.Decimal | front/src/id.rs:15-31 | `{}` of an unsigned number is at least one decimal digit, has no leading zero unless it is `0`, and denotes the number |
| HexId.ProjString | schling-common/src/id.rs:40-44 | a project's string is eight upper-case hex digits whose value is the project's value |
| HexId.DocString | schling-common/src/id.rs:46-50 | a document's string is sixteen upper-case hex digits: its project's string, then eight digits denoting its own value |
| HexId.SecString | schling-common/src/id.rs:52-56 | a section's string is twenty-four upper-case hex digits: its document's string, then eight digits denoting its own value |
| HexId.HexRun | schling-common/src/id.rs:58-68 | the scan of `take_while_m_n`: the longest run, at most `n` long, of hex digits at the start of the input |
| HexId.ParseHex8 | schling-common/src/id.rs:58-68 | `parse_hex8` succeeds exactly when the first eight characters are hex digits of either case; it then consumes exactly those eight and yields their value |
| HexId.ParseHex8OfToken | schling-common/src/id.rs:40-44 | an eight-digit token followed by anything reads back as its value, leaving exactly what followed |
| HexId.ProjTokenParses | schling-common/src/id.rs:70-73 | `parse_proj` on a project's string followed by anything yields the project and leaves exactly the rest |
| HexId.DocTokenParses | schling-common/src/id.rs:75-79 | `parse_doc` on a document's string followed by anything yields the document and leaves exactly the rest |
| HexId.SecTokenParses | schling-common/src/id.rs:81-85 | `parse_sec` on a section's string followed by anything yields the section and leaves exactly the rest |
| HexId.FromStrInvertsString | schling-common/src/id.rs:40-118 | `from_str(String::from(id)) == Ok(id)` for every project, document and section |
| HexId.FromStrReadsAncestor | schling-common/src/id.rs:87-118 | `from_str` ignores what follows the consumed prefix: a project read from a document's or section's string is its project, a document read from a section's string is its document |
| HexId.DocFromStrAccepts | schling-common/src/id.rs:75-79 | a document parses exactly when the first sixteen characters are hex digits, so it fails as a whole when either field fails; the fields are the project's and the document's values |
| HexId.SecFromStrAccepts | schling-common/src/id.rs:81-85 | a section parses exactly when the first twenty-four characters are hex digits |
| HexId.LowerTokenValue | schling-common/src/id.rs:58-64 | lower-case digits are hex digits and carry their value (`0000abcd` denotes 0xABCD) |
| HexId.LowerCaseAccepted | schling-common/src/id.rs:87-96 | `Proj::from_str("0000abcd")` is the project 0xABCD |
| HexId.UpperCaseWritten | schling-common/src/id.rs:40-44 | the project 0xABCD is written `0000ABCD`, in upper case |
| HexId.PartialCmpIgnoresParents | schling-common/src/id.rs:9-38 | `partial_cmp` of documents and of sections is `Equal` exactly when their own values agree, whatever their parents; two documents in different projects with value 1 compare `Equal` but are not `==` |
| HexId.DeserializeProj | schling-common/src/id.rs:139-166 | the visitor succeeds exactly when `from_str` does and then returns `from_str`'s id; every failure is the one message "invalid format" |
| HexId.DeserializeDoc | schling-common/src/id.rs:139-166 | as for projects, with the document parser and its id |
| HexId.DeserializeSec | schling-common/src/id.rs:139-166 | as for projects, with the section parser and its id |
| HexId.DeserializeInvertsSerialize | schling-common/src/id.rs:120-166 | what `serialize` writes, `deserialize` reads back unchanged, at every level |
| CommonId.DisplayIsQueryForm | common/src/id.rs:26-42 | `Display` writes the tagged decimal form `proj=N`, `..&doc=N`, `..&card=N`, which the query-string parser reads back as the same values |
| CommonId.ProjString | common/src/id.rs:44-48 | a project's string is the eight-digit hex token, and `from_str` inverts it |
| CommonId.StringDoesNotRoundTrip | common/src/id.rs:50-60 | a document's or section's string starts with its parent's `Display` (`proj=`), so `from_str` rejects every one of them |
| CommonId.SerdeNeverRoundTrips | common/src/id.rs:124-164 | `serialize` writes the decimal `Display`, the visitors parse hex, so deserialising any serialised id fails with "invalid format" |
| QueryId.Tag | front/src/id.rs:34 | `tag(t)` succeeds exactly when `t` starts the input and then consumes exactly `t` |
| QueryId.DigitRun | front/src/id.rs:35 | `digit1`'s scan: the longest run of ASCII digits at the start of the input |
| QueryId.ParseNumber | front/src/id.rs:35 | `map_res(recognize(digit1), str::parse)` succeeds exactly when the input starts with at least one digit and the whole run denotes a value below 2^64; it consumes the run and yields its value |
| QueryId.ParseTagged | front/src/id.rs:41-42 | a tag followed by a number succeeds exactly when the tag is there and the number after it parses |
| QueryId.ParseProjId | front/src/id.rs:33-37 | `parse_proj_id` succeeds exactly when `proj=` and a number parse, leaving what follows the number and yielding the project with that value |
| QueryId.ParseDocId | front/src/id.rs:39-44 | `parse_doc_id` succeeds exactly when the project id, `&doc=` and a number parse in turn, leaving what follows and yielding the document with that value under the parsed project |
| QueryId.ParseCardId | front/src/id.rs:46-51 | `parse_card_id` succeeds exactly when the document id, `&card=` and a number parse in turn, leaving what follows and yielding the card with that value under the parsed document |
| QueryId.ProjFromU64 | front/src/id.rs:53-57 | the project built from a number shows that number after `proj=` |
| QueryId.DocIntoU64 | front/src/id.rs:59-63 | a document converts to the number shown last in its form |
| QueryId.CardIntoU64 | front/src/id.rs:65-69 | a card converts to the number shown last in its form |
| QueryId.DeserializeProj | front/src/id.rs:134-142 | the visitor fails exactly when `parse_proj_id` does, always with "invalid format", and otherwise returns the parsed id and ignores the leftover input |
| QueryId.DeserializeDoc | front/src/id.rs:154-162 | as for projects, with `parse_doc_id` |
| QueryId.DeserializeCard | front/src/id.rs:174-182 | as for projects, with `parse_card_id` |
| QueryId.DigitRunOfDigits | front/src/id.rs:35 | the digit run of a digit string followed by a non-digit is exactly that string |
| QueryId.NumberParses | front/src/id.rs:35 | a number written by `{}` and followed by a non-digit is read back whole, leaving what followed |
| QueryId.TaggedParses | front/src/id.rs:41-42 | a tag and a written number, followed by a non-digit, read back as that number |
| QueryId.ProjFormParses | front/src/id.rs:15-19 | `parse_proj_id` on a project's `Display` followed by a non-digit yields the project and leaves exactly the rest |
| QueryId.DocFormParses | front/src/id.rs:21-25 | `parse_doc_id` on a document's `Display` followed by a non-digit yields the document and leaves exactly the rest |
| QueryId.CardFormParses | front/src/id.rs:27-31 | `parse_card_id` on a card's `Display` followed by a non-digit yields the card and leaves exactly the rest |
| QueryId.ParseInvertsDisplay | front/src/id.rs:15-51 | parsing the `Display` string of any project, document or card id yields that id with nothing left |
| QueryId.DeserializeInvertsSerialize | front/src/id.rs:71-182 | what `serialize` writes, `deserialize` reads back unchanged, at every level |
| QueryId.DeserializeReadsAncestor | front/src/id.rs:134-182 | a visitor reading a longer form ignores the leftover input and returns the ancestor it starts with |
| QueryId.LeadingZerosAccepted | front/src/id.rs:35 | `proj=007` parses as the project 7, which is written back as `proj=7` |
| QueryId.OverflowRejected | front/src/id.rs:33-37 | a project number of 2^64 or more makes `parse_proj_id` fail |
| QueryId.NumberOverflows | front/src/id.rs:35 | a digit run denoting 2^64 or more makes the number parser fail |
| QueryId.ProjIdGrammar | front/src/id.rs:33-37 | a project id parses exactly when the input is `proj=`, one or more digits and a value below 2^64; the value is the digits' |
| Markups.New | common/src/markup.rs:21-23 | `Markup::new` keeps the text and the language it is given |
| Markups.HtmlMarkup | common/src/markup.rs:25-44 | `html` and `html_str` tag the text as Html and keep it unchanged |
| Markups.MdMarkup | common/src/markup.rs:32-51 | `md` and `md_str` tag the text as Md and keep it unchanged |
| Markups.WithText | common/src/markup.rs:81-85 | `MarkupLang::with_text` keeps the language and takes the new text |
| Markups.DefaultLang | common/src/markup.rs:87-91 | the default language is Md |
| Markups.DefaultMarkup | back/src/markup.rs:87-94 | the default markup is empty Md text |
| Markups.CloneMarkup | back/src/markup.rs:10-17 | the hand-written `clone` copies both fields, giving an equal markup |
| Markups.ReadDisplayInverts | common/src/markup.rs:69-73 | `Display` writes the language name and the text in square brackets, from which both can be read back |
| Markups.DisplayRoundTrip | common/src/markup.rs:69-101 | the displayed form determines the markup: distinct markups display differently |
| Markups.WithTextRebuilds | common/src/markup.rs:63-85 | `with_text` on a markup's own language and its `String` form rebuilds the markup, which is also what `clone` gives |
| VariantMarkup.WithText | src/markup.rs:36-41 | `with_text` keeps the variant and holds exactly the new text |
| VariantMarkup.DefaultMarkup | src/components/edt.rs:20-26 | the default markup is empty Markdown |
| VariantMarkup.ReadDisplayInverts | src/markup.rs:17-26 | `Display` writes `Html(text)` or `Markdown(text)`, from which variant and text can be read back |
| VariantMarkup.DisplayDistinguishes | src/markup.rs:11-26 | derived equality and `Display` tell the variants apart: `Html(s) != Markdown(s)`, and equal displays mean equal markups |
| VariantMarkup.ToHtml | src/markup.rs:43-65 | Html text reaches the DOM parser unchanged, Markdown text only after conversion; a parser failure is the error |
| VariantMarkup.WithOwnText | src/markup.rs:29-41 | `with_text(markup())` changes nothing, and of two `with_text` calls only the last one counts |
| Editor.Edt.Create | src/components/edt.rs:71-77 | `create` starts viewing the default markup (empty Markdown) with no HTML |
| Editor.Edt.MarkupToHtml | src/components/edt.rs:58-63 | HTML text is rendered as it is, Markdown text through the converter |
| Editor.Edt.Update | src/components/edt.rs:107-130 | `View` switches to viewing, renders the markup and asks for a re-render exactly when the HTML changed; `Edit` switches to editing and always asks; `Update(t)` replaces the text keeping the variant, leaves state and HTML alone and never asks; afterwards `is_view` holds exactly after `View`, or after `Update` while viewing |
| MarkdownRender.PushUnique | common/src/markup.rs:182 | `Classes::push`: afterwards the set holds exactly the old names and the new one |
| MarkdownRender.Dedup | common/src/markup.rs:180 | reading a class attribute into `Classes` keeps exactly the names it holds |
| MarkdownRender.AddClassAppends | common/src/markup.rs:175-184 | `add_class` keeps the classes already there, each once and in order, appends the new one unless present, and changes nothing but the class attribute |
| MarkdownRender.MakeTag | common/src/markup.rs:273-352 | every opened element has no children; a heading is `h<n>`; `List(None)` is `ul`, `List(Some(1))` an `ol` without `start`, `List(Some(n))` an `ol` with `start=n`; links and images always get `href`/`src` and get `title` exactly when it is non-empty; a code block is `code`, with class `<lang>-language` exactly for fenced html, rust, java and c |
| MarkdownRender.AlignedTableClasses | common/src/markup.rs:220-239 | closing a table gives the element cell in column `i` of every element row the class of `aligns[i]` (none for `None`), rows and cells keeping their places and names |
| MarkdownRender.ScopedHead | common/src/markup.rs:240-247 | closing a table head adds `scope="col"` to every element child and changes nothing else |
| MarkdownRender.AddLeaf | common/src/markup.rs:193-199 | `add_child!` panics when nothing is open and otherwise appends the node to the innermost open element |
| MarkdownRender.StepFacts | common/src/markup.rs:206-260 | one event: a start opens one element, an end closes one, a text, rule or break needs an open element, unsupported events change nothing; the roots only grow, by one exactly when the outermost element closes; the only panics are the three asserted or indexed ones |
| MarkdownRender.Finish | common/src/markup.rs:263-269 | exactly one root is returned as itself; any other number, none included, as a fragment of all roots in order |
| MarkdownRender.AlignTable | common/src/markup.rs:220-239 | the table post-processing loops over rows and cells give the aligned table, and panic exactly when an element cell's column has no alignment |
| MarkdownRender.ScopeHead | common/src/markup.rs:240-247 | the table-head loop gives the scoped head |
| MarkdownRender.CloseInnermost | common/src/markup.rs:211-254 | an end event pops the innermost element, post-processes it by its tag and attaches it to its parent, or to the roots when it was the outermost, exactly as one machine step |
| MarkdownRender.AppendLeaf | common/src/markup.rs:255-258 | a text, rule or break event is exactly one machine step |
| MarkdownRender.RenderMarkdown | common/src/markup.rs:189-270 | the renderer's loop over the events returns what the stack machine computes over the same events, panics included |
| MarkdownRender.RunDepth | common/src/markup.rs:206-261 | after a run without a panic the spine has grown by the starts less the ends, and the roots found before are kept, in order, in front of any new ones |
| MarkdownRender.RunOkIffNested | common/src/markup.rs:193-261 | outside tables the renderer panics exactly when the events close an element that is not open or add a child while nothing is open |
| MarkdownRender.StrongParagraph | common/src/markup.rs:206-269 | a strong span in a paragraph renders as a single `p` holding a `span` of class `font-weight-bold` around the text |
| MarkdownRender.FencedCodeInPre | common/src/markup.rs:216-219 | a fenced Rust block renders as a `pre` around a `code` of class `rust-language` holding the text |
| MarkdownRender.UnclosedDropped | common/src/markup.rs:263-269 | elements still open at the end are dropped: a paragraph never closed gives an empty fragment |
| MarkdownRender.AlignUnclassed | common/src/markup.rs:175-184 | aligning a cell without a class sets its class to the column's |
| MarkdownRender.TableCellsAligned | common/src/markup.rs:220-247 | a head of two cells under alignments Left and Right: the cells get `scope="col"` when the head closes and `text-left`/`text-right` when the table closes |
| MarkdownRender.ExtraCellPanics | common/src/markup.rs:230 | a row with an element cell but a table without alignments panics when the table closes |
| MarkdownRender.ToDom | common/src/markup.rs:106-111 | Html text goes to the raw-HTML node verbatim, unparsed and unescaped; Md text is tokenized and rendered |
| Texts.WordsOfJoin | common/src/markup.rs:180-183 | splitting at Unicode whitespace (`char::is_whitespace`) undoes joining non-empty, whitespace-free names with single spaces, as `Classes` reads back what it wrote |
| Keys.Compare | schling-common/src/key.rs:105 | `str::cmp` is `Less`, `Equal` or `Greater` exactly as the first key is lexicographically below, equal to or above the second |
| Keys.BelowIrreflexive | schling-common/src/key.rs:105 | no key is below itself |
| Keys.BelowAsymmetric | schling-common/src/key.rs:105 | no two keys are each below the other |
| Keys.BelowTotal | schling-common/src/key.rs:105 | of two different keys one is below the other |
| Keys.BelowTransitive | schling-common/src/key.rs:105 | the order is transitive, which the bisection relies on |
| Keys.KeyStack.Default | schling-common/src/key.rs:67-70 | the default stack holds no key |
| Keys.KeyStack.Find | schling-common/src/key.rs:103-106 | on a strictly sorted stack, `Ok(i)` names the key's position; `Err(i)` says the key is absent and `i` is its sorted insertion point |
| Keys.KeyStack.KeyDown | schling-common/src/key.rs:79-87 | a key not held is inserted at its sorted place, whose index is returned; a held key gives `None` and changes nothing; the stack stays strictly sorted |
| Keys.KeyStack.KeyUp | schling-common/src/key.rs:89-97 | a held key is removed, exactly that entry, and its old index returned; any other key gives `None` and changes nothing; afterwards the key is not held and the stack stays strictly sorted |
| Keys.KeyStack.Clear | schling-common/src/key.rs:99-101 | `clear` leaves nothing held |
| Keys.DisplayListsKeys | schling-common/src/key.rs:72-76 | when no key name is empty or holds whitespace, `Display` lists exactly the held keys, in sorted order, separated by spaces |
| Keys.SpaceKeyHidden | schling-common/src/key.rs:72-76 | the space key held alone displays as blank, so the display does not show it |
| Keys.Registered | schling-common/src/key.rs:195-198 | `Register` appends the shortcut to its pattern's list and leaves every other pattern's list alone |
| Keys.Position | schling-common/src/key.rs:201 | `position` finds the first shortcut equal to the one given |
| Keys.RemoveFirst | schling-common/src/key.rs:201-203 | removing the first equal shortcut keeps the others in order; with none equal the list is unchanged |
| Keys.Unregistered | schling-common/src/key.rs:199-206 | `Unregister` removes only the first equal shortcut under its pattern, leaves other patterns alone, and changes nothing when there is none |
| Keys.FirstExecutable | schling-common/src/key.rs:210-215 | `find(can_execute)` is the first shortcut whose guard holds, and `None` exactly when no guard holds |
| Keys.KeyContext.Create | schling-common/src/key.rs:169-176 | a new context has no hotkeys and nothing held |
| Keys.KeyContext.Update | schling-common/src/key.rs:193-232 | every message returns false; `Register`/`Unregister` edit only the hotkeys as above; `KeyDown` adds the key to the held keys when it was not held (and leaves them alone otherwise) and runs at most one shortcut, the first for that key whose guard holds; `KeyUp` removes exactly one occurrence of the key from the held keys, which are unchanged when it was not held; a blur to outside clears the held keys |
| Keys.KeyRegistrar.Create | schling-common/src/key.rs:253-258 | a new registrar has no subscribers |
| Keys.KeyRegistrar.HandleInput | schling-common/src/key.rs:262-266 | the shortcut is sent back to the handler exactly when that handler is connected |
| Keys.KeyRegistrar.Connected | schling-common/src/key.rs:268-270 | connecting adds the handler to the subscribers |
| Keys.KeyRegistrar.Disconnected | schling-common/src/key.rs:272-274 | disconnecting removes the handler from the subscribers |
| Source.Utf8Len | schling-common/src/source.rs:22-24 | a string's length in UTF-8 bytes lies between its length in characters and four times that |
| Source.TextLen | schling-common/src/source.rs:22-24 | `Text::len` is the byte length: at least the number of characters, at most four times it, and equal to it for ASCII text |
| Source.AsciiLen | schling-common/src/source.rs:22-24 | ASCII text takes one byte per character |
| Source.TextIsEmpty | schling-common/src/source.rs:26-28 | `is_empty` holds exactly when the text has no characters |
| Source.TextParse | schling-common/src/source.rs:30-32 | `Text::parse` yields no symbols |
| Source.TokenizerNext | schling-common/src/source.rs:42-48 | `Tokenizer::next` ends at once, on empty and non-empty text alike |
| Source.Number | schling-common/src/source.rs:58-60 | `Line::number` counts from one: it is the id plus one |
| Source.GutterId | schling-common/src/source.rs:62-64 | `gutter_id` is `L` followed by the line number in decimal |
| Source.CodeId | schling-common/src/source.rs:66-68 | `code_id` is `LC` followed by the line number in decimal |
| Source.LineIdsDistinct | schling-common/src/source.rs:57-68 | gutter ids and code ids each tell lines apart, and no gutter id is a code id |
| Source.RunLen | schling-common/src/source.rs:88 | the longest prefix free of the stop characters |
| Source.IsNot | schling-common/src/source.rs:88 | `is_not(chars)` takes the longest prefix avoiding every character of its argument and fails when that prefix is empty |
| Source.Delimited | schling-common/src/source.rs:86-90 | `delimited(open, verify(is_not(stop), non-empty), close)` succeeds exactly when the opening is there, a non-empty stop-free run follows and the closing follows that; the input is then the opening, the body, the closing and the rest |
| Source.DelimitedAccepts | schling-common/src/source.rs:86-90 | a non-empty stop-free body between the delimiters is read back whole, the rest untouched, when the closing starts with a stop character |
| Source.ParseStr | schling-common/src/source.rs:82-91 | `parse_str` yields a non-empty body free of `\` and `"` between double quotes |
| Source.ParseChars | schling-common/src/source.rs:93-102 | `parse_chars` yields a non-empty body free of `\` and `'` between single quotes |
| Source.ParseTick | schling-common/src/source.rs:104-113 | `parse_tick` yields a non-empty body free of `\` and backticks between backticks |
| Source.ParseMultiTick | schling-common/src/source.rs:115-124 | `parse_multi_tick` yields a non-empty body between triple backticks that holds no `\` and no single backtick |
| Source.ParseGtLt | schling-common/src/source.rs:126-135 | `parse_gt_lt` yields a non-empty body between `<<` and `>>` that holds no `\` and no single `>` |
| Source.ParseGuillemets | schling-common/src/source.rs:137-146 | `parse_guillemets` yields a non-empty body free of `\` and `»` between `«` and `»` |
| Source.AsStr | schling-common/src/source.rs:157-167 | `as_str` gives the captured body for every kind of literal |
| Source.ParseQuote | schling-common/src/source.rs:170-182 | `parse_quote` succeeds exactly when one of the six parsers does, yields a non-empty body framed by its kind's delimiters, and on failure reports the last alternative's error |
| Source.OpeningMismatch | schling-common/src/source.rs:86-146 | a literal parser fails on input that does not start with its opening delimiter |
| Source.QuoteParsersExclusive | schling-common/src/source.rs:170-182 | at most one of the six parsers accepts any input, so the order of the `alt` decides nothing |
| Source.TickNotMultiTick | schling-common/src/source.rs:104-124 | a tick literal is never taken by the triple-tick parser |
| Source.ParseQuoteReads | schling-common/src/source.rs:148-182 | every literal with a non-empty body free of its kind's excluded characters is read back by `parse_quote` as its own kind and body, the rest untouched |
| Source.EmptyStrRejected | schling-common/src/source.rs:86-90 | the empty literal `""` is refused |
| Source.EscapedQuoteRejected | schling-common/src/source.rs:86-90 | the literal `"a\"b"` is refused: the body stops at the backslash, where no quote follows |
| Source.BackslashBeforeQuoteRejected | schling-common/src/source.rs:86-90 | every string literal with a backslash before its first closing quote is refused, whatever follows |
| Source.StrNeedsDelimiters | schling-common/src/source.rs:86-90 | empty input, a leading space and a missing closing quote are all refused |
| Source.SetNotWord | schling-common/src/source.rs:115-135 | a single `>` ends a `<<..>>` body and a single backtick ends a triple-backtick body, so `<<a>b>>` and a triple-tick literal holding one backtick are refused |
| Source.LiteralOpenings | schling-common/src/source.rs:82-146 | each literal parser succeeds only on input opening with its own delimiter |
| Source.TickOpenings | schling-common/src/source.rs:104-124 | the multi-tick literal needs a second backtick and the single-tick literal refuses one |
| TextArea.LineEnd | schling-front/src/components/textarea.js:34 | the first newline's index (or the length): no newline before it, a newline at it |
| TextArea.SplitLines | schling-front/src/components/textarea.js:34 | `split('\n')` yields at least one piece, no piece holds a newline, and joining with newlines gives the value back |
| TextArea.StripTab | schling-front/src/components/textarea.js:45 | the `^    ` replace drops exactly four leading spaces when present and leaves any other line unchanged |
| TextArea.TotalAppend | schling-front/src/components/textarea.js:42 | the running count `cnt` grows by the length of each line, newlines not counted |
| TextArea.TotalMonotone | schling-front/src/components/textarea.js:39-43 | running counts never decrease from one line to the next |
| TextArea.FirstReach | schling-front/src/components/textarea.js:39-54 | the edited line is the first whose running count reaches the cursor; every earlier count is below it; none when no count reaches it |
| TextArea.Edited | schling-front/src/components/textarea.js:43-53 | only the chosen line changes, and it loses its leading tab; every other line is kept |
| TextArea.TerminatedAppend | schling-front/src/components/textarea.js:56 | `newValue += line + '\n'` appends each line with its own newline |
| TextArea.DomOffset | schling-front/src/components/textarea.js:29 | assigning a selection offset stores it modulo 2^32, clamped to the value's length; an in-range offset is stored unchanged |
| TextArea.RemovedEndsInNewline | schling-front/src/components/textarea.js:56-60 | the value `removeTab` writes always ends with a newline |
| TextArea.TerminatedEnds | schling-front/src/components/textarea.js:56 | a non-empty list of lines, each written with its newline, ends in a newline |
| TextArea.TerminatedIsJoined | schling-front/src/components/textarea.js:34-56 | writing every line with a newline is the newline join of the lines plus one extra newline |
| TextArea.SplitTerminated | schling-front/src/components/textarea.js:34-56 | splitting newline-terminated lines gives the lines back plus one empty last line |
| TextArea.RemovedLines | schling-front/src/components/textarea.js:32-60 | the lines of the written value are the old lines with only the chosen line stripped, plus an empty last line |
| TextArea.NothingToStrip | schling-front/src/components/textarea.js:43-51 | when no line reaches the cursor or the chosen line has no leading tab, Shift+Tab only appends a newline and leaves the cursor |
| TextArea.RemoveUndoesAddAtStart | schling-front/src/components/textarea.js:19-64 | Shift+Tab right after a Tab typed at the very start restores the text (plus a trailing newline) and the cursor to 0 |
| TextArea.StripsLaterLine | schling-front/src/components/textarea.js:39-51 | because the count leaves out newlines, a cursor at the end of the second line strips the third line's tab and moves four back |
| TextArea.SpecialKeys | schling-front/src/components/textarea.js:6-14 | key 16 flips the Shift flag, key 17 the Control flag, any other key leaves both |
| TextArea.PressReleaseRestores | schling-front/src/components/textarea.js:6-17 | a keydown and keyup of the same key leave both flags as they were |
| TextArea.TabTextArea.Attach | schling-front/src/components/textarea.js:1-4 | both modifier flags start off; the textarea holds the given text with the cursor at 0 |
| TextArea.TabTextArea.Select | schling-front/src/components/textarea.js:29 | moving the cursor collapses the selection at the stored DOM offset and changes nothing else |
| TextArea.TabTextArea.CheckSpecialKeys | schling-front/src/components/textarea.js:6-14 | the flags become those of `SpecialKeys`; the text and selection are unchanged |
| TextArea.TabTextArea.AddTab | schling-front/src/components/textarea.js:19-30 | the selection is replaced by four spaces and the cursor lands after them (exactly start + 4 within DOM range) |
| TextArea.TabTextArea.RemoveTab | schling-front/src/components/textarea.js:32-64 | the value becomes `RemovedValue` and the cursor `RemovedCursor`, stored as a DOM offset |
| TextArea.TabTextArea.OnKeyDown | schling-front/src/components/textarea.js:66-78 | Tab without Shift indents, Tab with Shift outdents, any other key changes nothing; the flags are untouched |
| TextArea.TabTextArea.KeyDown | schling-front/src/components/textarea.js:6-17 | a keydown runs the textarea's Tab handling, so Tab inserts a tab at the selection and Shift+Tab writes back `removeTab`'s edited lines, each leaving a collapsed selection at the new cursor, and then the document's flag toggle |
| TextArea.TabTextArea.KeyUp | schling-front/src/components/textarea.js:17 | a keyup only toggles the modifier flags; text and selection are unchanged |
| Storage.Store.Get | schling-front/src/data.rs:119-125 | a read finds a value exactly when the key is stored, and it is the stored value |
| Storage.Store.Set | schling-front/src/data.rs:127-134 | after a write the key holds the new value and every other key reads as before |
| SchlingData.BodyOf | schling-front/src/data.rs:44-49 | `head.body(content)` keeps the head and the content as given |
| SchlingData.HeadWithTitle | schling-front/src/data.rs:51-57 | a head's `own_with_title` keeps its id and order and takes the new title |
| SchlingData.WithTitle | schling-front/src/data.rs:72-77 | a body's `own_with_title` keeps id, order and content and takes the new title |
| SchlingData.WithContent | schling-front/src/data.rs:79-84 | `own_with_content` keeps the head and takes the new content |
| SchlingData.HeadPartialCmp | schling-front/src/data.rs:37 | heads always compare, and compare Equal or Less exactly as their orders do |
| SchlingData.BodyPartialCmp | schling-front/src/data.rs:65 | bodies compare as their heads |
| SchlingData.SameOrderNotEqual | schling-front/src/data.rs:31-37 | two heads differing only in title compare Equal yet are not equal: ordering and equality disagree |
| SchlingData.SecKey | schling-front/src/data.rs:90-97 | a section's key is the type name, `-`, and a hex string that parses back to the id |
| SchlingData.DocKey | schling-front/src/data.rs:100-107 | a document's key is the type name, `-`, and a hex string that parses back to the id |
| SchlingData.ProjKey | schling-front/src/data.rs:110-117 | a project's key is the type name, `-`, and a hex string that parses back to the id |
| SchlingData.SecKeysApart | schling-front/src/data.rs:90-97 | two section ids share a key exactly when they are equal |
| SchlingData.DocKeysApart | schling-front/src/data.rs:100-107 | two document ids share a key exactly when they are equal |
| SchlingData.ProjKeysApart | schling-front/src/data.rs:110-117 | two project ids share a key exactly when they are equal |
| SchlingData.TypeNamesDiffer | schling-front/src/data.rs:95-115 | keys prefixed by different type names never coincide |
| SchlingData.KeysDistinct | schling-front/src/data.rs:90-117 | keys are injective per type and no section, document and project key coincide |
| SchlingData.LoadSec | schling-front/src/data.rs:11-14 | `load` finds a section exactly when its key holds a value that decodes as a section |
| SchlingData.LoadDoc | schling-front/src/data.rs:11-14 | `load` finds a document exactly when its key holds a value that decodes as a document |
| SchlingData.LoadProj | schling-front/src/data.rs:11-14 | `load` finds a project exactly when its key holds a value that decodes as a project |
| SchlingData.UpdateSec | schling-front/src/data.rs:16-19 | `update` stores the section under its key, returns it, and a later `load` reads it back |
| SchlingData.UpdateDoc | schling-front/src/data.rs:16-19 | `update` stores the document under its key, returns it, and a later `load` reads it back |
| SchlingData.UpdateProj | schling-front/src/data.rs:16-19 | `update` stores the project under its key, returns it, and a later `load` reads it back |
| SchlingData.UpdateKeepsOthers | schling-front/src/data.rs:16-19 | writing one section leaves every other section's and every document's entry as it was |
| SecList.NextSecHead | schling-front/src/components/sec_list.rs:24-31 | the pushed head is numbered (id and order) by the current count, below the document, untitled; the count is cut to 32 bits |
| SecList.Push | schling-front/src/components/sec_list.rs:23-36 | one head is appended, the document head and the earlier heads are kept, and the new body is written under the document's key |
| SecList.PushKeepsNumbered | schling-front/src/components/sec_list.rs:24-31 | while fewer than 2^32 sections exist, every head keeps the id and order of its index |
| SecList.PushWrapsAround | schling-front/src/components/sec_list.rs:26 | at 2^32 sections the `as u32` count wraps and the new head repeats the first head's id |
| SecList.NewDocument | schling-front/src/components/sec_list.rs:45-47 | a new document is ordered by its value, titled `Document <value>`, and has no sections |
| SecList.Initial | schling-front/src/components/sec_list.rs:52-54 | the list starts from the stored document when it decodes, otherwise from a new one |
| Section.SectionId | schling-front/src/components/sec.rs:17-21 | the element id is `section-` then the value in decimal |
| Section.SectionContentId | schling-front/src/components/sec.rs:23-25 | the content element id is `section-content-` then the value in decimal |
| Section.ElementIdsDistinct | schling-front/src/components/sec.rs:17-25 | element ids are equal exactly when the values are, and a section id never equals a content id |
| Section.Reduce | schling-front/src/components/sec.rs:42-92 | Edit and View set the mode, Space or Enter enters edit mode, other keys change nothing; title and content edits keep the mode and write the section under its key; id and order never change |
| Section.NewSection | schling-front/src/components/sec.rs:103-105 | a new section is ordered by its value, titled `Section <value>`, with empty Markdown content |
| Section.Initial | schling-front/src/components/sec.rs:110-113 | a section starts in view mode with the stored body when it decodes, otherwise a new one |
| FrontData.ProjWithId | front/src/data.rs:65-70 | a new project has the given id and no documents; front/src/components/proj.rs:16-21 builds its page state the same way |
| FrontData.NextDocId | front/src/data.rs:72-77 | `doc_next` (here and at front/src/components/proj.rs:23-28) is under this project and numbered by the document count (cut to 64 bits) |
| FrontData.NextCardId | front/src/data.rs:134-139 | `card_next` is under this document and numbered by the card count (cut to 64 bits) |
| FrontData.ProjDocWithId | front/src/data.rs:115-122 | a default document entry has the id, order = value, an empty Markdown summary and the title `Document <value>`; `Decl::with_id` (front/src/components/doc.rs:32-41) and proj.rs's `Doc::with_id` (:65-74) are the same |
| FrontData.DocCardWithId | front/src/data.rs:236-243 | a default card has the id, order = value, the default markup and the title `Section <value>`; doc.rs's `Card::with_id` (front/src/components/doc.rs:104-113) is the same |
| FrontData.ProjDocCmp | front/src/data.rs:102-112 | document entries compare Equal or Less exactly as their orders do; so do `Decl` (front/src/components/doc.rs:20-30) and proj.rs's `Doc` (:53-63) |
| FrontData.DocCardCmp | front/src/data.rs:223-233 | cards compare Equal or Less exactly as their orders do; so do doc.rs's cards (front/src/components/doc.rs:92-102) |
| FrontData.AddNextDocGrows | front/src/data.rs:72-91 | in a densely numbered project, adding the `doc_next` id never replaces an entry, grows the project by one and keeps it dense |
| FrontData.ProjGet | front/src/data.rs:11-13 | `proj_get` returns the stored project when it decodes, otherwise a new one; afterwards the key holds the project returned |
| FrontData.CardsGet | front/src/data.rs:25 | a document's cards are read as stored when they decode, otherwise empty; afterwards the key holds the cards returned |
| FrontData.KeysDistinct | front/src/data.rs:11-25 | a project's key `proj=N` never equals a document's key `proj=N&doc=M` |
| FrontData.ProjUpd | front/src/data.rs:15-17 | `proj_upd` stores the project under its id and returns it |
| FrontData.DocUpdChildren | front/src/data.rs:19-22 | `doc_upd_children` stores only the cards under the document's id and returns the document |
| FrontData.DocTitle | front/src/data.rs:26-30 | the title is the project's entry for the document, or `Document <value>` when there is none |
| FrontData.DocGet | front/src/data.rs:24-37 | `doc_get` yields the stored cards and the project's title in View mode, creating whatever was missing |
| FrontData.UpsertTitle | front/src/data.rs:41-53 | an existing entry only changes its title; a missing one is created with an empty summary and order = value; no other entry changes |
| FrontData.DocUpdTitle | front/src/data.rs:39-56 | `doc_upd_title` writes the retitled project and returns the document unchanged |
| FrontData.RetitledReadsBack | front/src/data.rs:39-56 | after retitling, the project reads back with the new title for this document and every other entry as before |
| FrontData.ProjReduce | front/src/data.rs:83-91 | `Add(id)` puts the default entry under the id, keeps the other entries and stores the project; proj.rs's reducer (front/src/components/proj.rs:34-42) is the same |
| FrontData.DocReduce | front/src/data.rs:172-212 | adding a card inserts its default and stores the cards; a card retitle or recontent applies only to an existing card with a different value; a title change retitles the project entry; a mode change stores nothing; an edit that does not apply changes nothing |
| FrontData.CardReduce | front/src/data.rs:264-302 | a mode action sets that mode, a double click ends in Edit, and a blur ends in View unless focus stays inside the card; front/src/components/sec.rs:32-74 reduces the section with it |
| FrontData.CardReduceIdempotent | front/src/data.rs:264-302 | dispatching any card action twice is the same as dispatching it once |
| FrontData.OrderedListing | front/src/components/proj.rs:91 | `BTreeSet::from_iter` lists every entry exactly once (as a multiset, the listing is the entries), ascending by order, with ties kept |
| FrontData.InsertStable | front/src/components/proj.rs:91 | one step of the stable sort keeps the list ascending and adds exactly the one value |
| FrontData.InsertedAscending | front/src/components/proj.rs:91 | placing a value after the entries of order up to its own and before the first of higher order keeps the list ascending |
| FrontDoc.CardNext | front/src/components/doc.rs:131-136 | `card_next` is under this document and numbered by the card count while that fits 64 bits |
| FrontDoc.OwnChildren | front/src/components/doc.rs:138-145 | `own_children` keeps the id and entry, takes the cards and leaves edit mode |
| FrontDoc.OwnMode | front/src/components/doc.rs:147-154 | `own_mode` keeps id, entry and cards and takes the mode |
| FrontDoc.Next | front/src/components/doc.rs:160-192 | the state the reducer returns: Add inserts the default card; a title or content edit applies only to an existing card with a different value, a title edit also leaving edit mode; DeclMode sets just the mode |
| FrontDoc.Reduce | front/src/components/doc.rs:160-192 | the reducer returns `Next` and writes the cards under the document's key exactly when a card was added or edited |
| FrontDoc.UpdChildren | front/src/data.rs:19-22 | the page's cards are stored under the document's key and the state is returned unchanged |
| FrontDoc.ActionsKeepDense | front/src/components/doc.rs:131-190 | adding at `card_next` never replaces a card, grows the table by one and keeps the numbering dense; other actions keep the card ids |
| FrontDoc.Listing | front/src/components/doc.rs:254-273 | every card of the table is listed exactly once, in ascending order of `order`, ties included |
| FrontCard.Default | front/src/components/card.rs:51-59 | a default card is shown, with the default markup and the title `Section` |
| FrontCard.WithMode | front/src/components/card.rs:66-72 | `with_mode` changes the mode and keeps content and title |
| FrontCard.WithModeView | front/src/components/card.rs:62-64 | `with_mode_view` is `with_mode(View)` |
| FrontCard.WithContent | front/src/components/card.rs:73-79 | `with_content` changes the content and keeps mode and title |
| FrontCard.WithTitle | front/src/components/card.rs:80-86 | `with_title` changes the title and keeps mode and content |
| FrontCard.Reduce | front/src/components/card.rs:89-132 | content and title actions replace that field; a mode action equal to the current mode changes nothing; mode actions keep content and title |
| FrontCard.ModeAction | front/src/components/card.rs:36-42 | exactly the content and title actions have no mode-only counterpart |
| FrontCard.ModeFollowsCardReduce | front/src/components/card.rs:92-132 | the card's mode moves as the plain card reducer of front/src/data.rs:264-302 moves it; content and title edits leave it |
| FrontCard.ReduceSettles | front/src/components/card.rs:92-132 | a double click ends in Edit, a blur to outside the card ends in View, and every action is idempotent |
| FrontCard.CardTable.CardWith | front/src/components/card.rs:15-20 | an existing card is returned shown and the table is unchanged; a missing one is entered as the default and returned |
| FrontSec.Initial | front/src/components/sec.rs:116-118 | a section starts shown |
| FrontSec.WithMode | front/src/components/sec.rs:27-29 | `with_mode` sets the mode |
| FrontSec.WithModeView | front/src/components/sec.rs:23-25 | `with_mode_view` is `with_mode(View)` |
| FrontSec.ElementId | front/src/components/sec.rs:145 | the element id is `card-` and the card's value in decimal |
| FrontSec.ElementIdsByValue | front/src/components/sec.rs:145 | two sections share an element id exactly when their values are equal, whatever their documents |
| FrontSec.EditThenLeave | front/src/components/sec.rs:35-73 | from the initial state a double click opens the section and a blur to outside closes it again |
| FrontProj.Listing | front/src/components/proj.rs:90-91 | every document of the project is listed exactly once, in ascending order of `order`, ties included |

## Left out

- The pulldown-cmark tokenizer is a function parameter. `MarkdownRender.ToDom` takes it, and `render_markdown` runs over any event sequence.
- The Markdown-to-HTML converters and the browser's `DomParser` are function parameters:
  - for `VariantMarkup.ToHtml`, pulldown-cmark's `html::push_html` over the parser with its options (src/markup.rs:57);
  - for `Editor.Edt.MarkupToHtml`, comrak's `markdown_to_html` (src/components/edt.rs:61).
- Unsupported Markdown events are skipped. The log line written for them is not modelled.
- JSON encoding of stored values is not modelled. A stored value either decodes as the expected type or is an `Undecodable` text.
- LocalStorage failures are not modelled. The source panics on a failed write.
- Storage logging is not modelled.
- `std::any::type_name` is implementation-defined. The storage keys of SchlingData use the fixed names `schling_front::data::Sec`, `::Doc` and `::Proj`.
- DOM focus walking is a boolean flag on the Blur actions: `map_parent`, `related_target`, `contains`.
  - front/src/components/sec.rs looks for an ancestor of class `Card`, although the section renders with class `Section`.
  - Whether such an ancestor exists depends on the page around it. The flag leaves that open.
- Selection offsets are counted in characters. The browser counts UTF-16 code units, and the two differ outside the Basic Multilingual Plane.
- FrontData.OrderedListing, FrontDoc.Listing, FrontProj.Listing: entries are listed as a set of values, so two map entries holding identical values are listed once. `BTreeSet::from_iter` merges such values only when the sort leaves them next to each other. The source's `Ord` (order only) disagrees with its derived `Eq`, which Rust calls a logic error with unspecified results. The model follows today's std: a stable sort that keeps every entry. Ties keep the `HashMap` iteration order, which is unspecified, so the model leaves it open.
- front/src/components/doc.rs's `get_cards` table is not modelled. `FrontCard.CardTable` stands for one document's table.
- `parse_trivia` in schling-common/src/source.rs is `todo!()` and is not modelled.
- The global `AtomicUsize` context counter of schling-common/src/key.rs is not modelled. It is concurrent global state.
- The `KeyContext` view is not modelled.
- The `usize` overflow of `Line::number` at the largest id is not modelled. Ids are unbounded naturals there.
- HexId.ProjFromStr, HexId.DocFromStr, HexId.SecFromStr: a failed `from_str` yields the input at which nom gave up, not nom's error value; only the visitors' "invalid format" message is modelled exactly.
- The browser's default Tab action (focus leaving the textarea) is not modelled, since the model has no focus state. The `return false` of the listener added with `addEventListener` (schling-front/src/components/textarea.js:67-76) does not cancel that default.
- The `RawHtml` component lifecycle (common/src/markup.rs:114-163) is UI glue.
- These files are UI glue and are not part of this model:
  - schling-front/src/components/text.rs
  - front/src/components/edt.rs
  - code_area.rs (its indent and outdent only log)
  - the page, route and app shells
- schling-common/src/invoke.rs and back/src/main.rs are not part of this model. They hold a closure wrapper and server stubs.

## Findings

| source | as written | input that shows it | evidently intended | confidence | as-written member | corrected member |
|---|---|---|---|---|---|---|
| common/src/id.rs:50-60 | `String::from(Doc)` and `String::from(Sec)` format the parent with `{}`, which is the decimal `Display` form `proj=N`. `from_str` then rejects the string. | `Doc { proj: Proj { value: 0 }, value: 0 }` gives `proj=000000000`, which `Doc::from_str` rejects. | The parent's hex `String` form, 16 or 24 hex digits that `from_str` reads back. | not executed | CommonId.StringDoesNotRoundTrip | HexId.FromStrInvertsString |
| common/src/id.rs:124-164 | `serialize` writes `to_string()`, the decimal `Display` form. The visitors parse the hex form. | Any id: `Proj { value: 0 }` serialises as `proj=0`, and deserialising that fails with "invalid format". | Serialise the hex `String` form, so that deserialising gives the id back. | not executed | CommonId.SerdeNeverRoundTrips | HexId.DeserializeInvertsSerialize |
