/** The source-text pieces of schling-common/src/source.rs: the quoted-literal
    parsers built from nom's `delimited`, `is_not` and `verify`, their `alt`
    dispatcher, and the small `Text` and `Line` accessors. */
module Source {
  import opened Chars
  import opened Outcomes
  import QueryId

  // ---------------------------------------------------------------------------
  // `Text`, `Symbol`, `Line`.

  /** The number of bytes `c` takes in UTF-8. */
  function Utf8Width(c: char): (n: nat)
    ensures 1 <= n <= 4
  {
    if c as int < 0x80 then 1 else if c as int < 0x800 then 2 else if c as int < 0x10000 then 3 else 4
  }

  function Utf8Len(s: string): (n: nat)
    ensures |s| <= n <= 4 * |s|
  {
    if s == [] then 0 else Utf8Width(s[0]) + Utf8Len(s[1..])
  }

  /** A source text: all its lines in one string. */
  datatype Text = Text(lines: string)

  /** `Text::len`: `String::len`, the length in bytes. */
  function TextLen(t: Text): (n: nat)
    ensures |t.lines| <= n <= 4 * |t.lines|
    ensures (forall i | 0 <= i < |t.lines| :: t.lines[i] as int < 0x80) ==> n == |t.lines|
  {
    AsciiLen(t.lines);
    Utf8Len(t.lines)
  }

  lemma {:induction false} AsciiLen(s: string)
    ensures (forall i | 0 <= i < |s| :: s[i] as int < 0x80) ==> Utf8Len(s) == |s|
  {
    if s != [] {
      AsciiLen(s[1..]);
      if forall i | 0 <= i < |s| :: s[i] as int < 0x80 {
        assert forall i | 0 <= i < |s[1..]| :: s[1..][i] == s[i + 1];
      }
    }
  }

  /** `Text::is_empty`: no bytes, which is no characters. */
  function TextIsEmpty(t: Text): (b: bool)
    ensures b <==> t.lines == []
  {
    TextLen(t) == 0
  }

  /** What the tokenizer produces. */
  datatype Symbol = QuoteSymbol(quote: Quote) | Trivia(trivia: string) | Ident(ident: string)

  /** `Text::parse`: the tokenizer is a stub, so no text yields any symbol. */
  function TextParse(t: Text): (syms: seq<Symbol>)
    ensures |syms| == 0
  {
    []
  }

  /** `Tokenizer::next`: the iterator ends at once, on empty and non-empty text
      alike. */
  function TokenizerNext(text: string): (sym: Option<Symbol>)
    ensures !sym.Some?
  {
    if text == [] then None else None
  }

  /** A numbered line of source; `id` counts from zero. */
  datatype Line = Line(id: nat, text: seq<Symbol>)

  /** `Line::number`: lines are shown counting from one. */
  function Number(l: Line): (n: nat)
    ensures n >= 1 && n - 1 == l.id
  {
    l.id + 1
  }

  /** `Line::gutter_id`: `L` and the line number. */
  function GutterId(l: Line): (s: string)
    ensures |s| >= 2 && s[0] == 'L' && AllDigits(s[1..]) && DigitsValue(s[1..]) == l.id + 1
  {
    "L" + Decimal(Number(l))
  }

  /** `Line::code_id`: `LC` and the line number. */
  function CodeId(l: Line): (s: string)
    ensures |s| >= 3 && s[..2] == "LC" && AllDigits(s[2..]) && DigitsValue(s[2..]) == l.id + 1
  {
    "LC" + Decimal(Number(l))
  }

  /** The element ids of a page's lines never collide: gutter ids and code ids
      each tell the lines apart, and no gutter id is a code id. */
  lemma LineIdsDistinct(a: Line, b: Line)
    ensures GutterId(a) == GutterId(b) <==> a.id == b.id
    ensures CodeId(a) == CodeId(b) <==> a.id == b.id
    ensures GutterId(a) != CodeId(b)
  {
    var ga, gb := GutterId(a), GutterId(b);
    if ga == gb {
      assert ga[1..] == gb[1..];
    }
    var ca, cb := CodeId(a), CodeId(b);
    if ca == cb {
      assert ca[2..] == cb[2..];
    }
    assert IsDigit(ga[1..][0]);
    assert CodeId(b)[1] == 'C';
  }

  // ---------------------------------------------------------------------------
  // The nom combinators the literal parsers are built from.

  /** The length of the longest prefix free of the characters in `stop`. */
  function RunLen(s: string, stop: set<char>): (k: nat)
    ensures k <= |s|
    ensures forall i | 0 <= i < k :: s[i] !in stop
    ensures k < |s| ==> s[k] in stop
  {
    if s == [] || s[0] in stop then 0 else 1 + RunLen(s[1..], stop)
  }

  predicate Avoids(s: string, stop: set<char>) {
    forall i | 0 <= i < |s| :: s[i] !in stop
  }

  /** `is_not(stop)` on complete input: the longest prefix that avoids every
      character of `stop` (its argument is a set, not a word); an empty
      prefix is an error. */
  function IsNot(stop: set<char>, input: string): (r: IResult<string>)
    ensures r.Done? <==> RunLen(input, stop) > 0
    ensures r.Done? ==> r.output == input[..RunLen(input, stop)] && r.rest == input[RunLen(input, stop)..]
    ensures r.Fail? ==> r.at == input
  {
    var k := RunLen(input, stop);
    if k == 0 then Fail(input) else Done(input[k..], input[..k])
  }

  /** `delimited(tag(open), verify(is_not(stop), non-empty), tag(close))`; a
      single `char(c)` is the one-character tag. The error records where the
      failing piece started. */
  function Delimited(open: string, stop: set<char>, close: string, input: string): (r: IResult<string>)
    ensures r.Done? <==>
              open <= input && RunLen(input[|open|..], stop) > 0 &&
              close <= input[|open|..][RunLen(input[|open|..], stop)..]
    ensures r.Done? ==>
              r.output != [] && Avoids(r.output, stop) &&
              input == open + r.output + close + r.rest
  {
    match QueryId.Tag(open, input)
    case Fail(at) => Fail(at)
    case Done(afterOpen, _) =>
      match IsNot(stop, afterOpen)
      case Fail(at) => Fail(at)
      case Done(afterBody, body) =>
        if body == [] then Fail(afterOpen)
        else
          match QueryId.Tag(close, afterBody)
          case Fail(at) => Fail(at)
          case Done(rest, _) =>
            Regroup(input, open, afterOpen, body, afterBody, close, rest);
            Done(rest, body)
  }

  lemma Regroup(input: string, open: string, afterOpen: string, body: string, afterBody: string, close: string, rest: string)
    requires input == open + afterOpen && afterOpen == body + afterBody && afterBody == close + rest
    ensures input == open + body + close + rest
  {
  }

  /** The converse: a non-empty body that avoids `stop`, between the
      delimiters, is read back whole with the rest of the input untouched,
      provided the closing delimiter starts with a stop character (true of
      every literal kind below). */
  lemma DelimitedAccepts(open: string, stop: set<char>, close: string, body: string, rest: string)
    requires close != [] && close[0] in stop
    requires body != [] && Avoids(body, stop)
    ensures Delimited(open, stop, close, open + body + close + rest) == Done(rest, body)
  {
    var input := open + body + close + rest;
    var after := input[|open|..];
    assert after == body + close + rest;
    assert after[|body|] == close[0];
    assert RunLen(after, stop) == |body|;
    assert after[..|body|] == body;
    assert after[|body|..] == close + rest;
  }

  // ---------------------------------------------------------------------------
  // The six literal kinds.

  const GUILLEMET_OPEN: char := '\U{00AB}'
  const GUILLEMET_CLOSE: char := '\U{00BB}'

  /** `parse_str`: `"`, a body without `\` or `"`, `"`. */
  function ParseStr(input: string): (r: IResult<string>)
    ensures r.Done? ==> r.output != [] && input == "\"" + r.output + "\"" + r.rest &&
                        '\\' !in r.output && '"' !in r.output
  {
    Delimited("\"", {'\\', '"'}, "\"", input)
  }

  /** `parse_chars`: `'`, a body without `\` or `'`, `'`. */
  function ParseChars(input: string): (r: IResult<string>)
    ensures r.Done? ==> r.output != [] && input == "'" + r.output + "'" + r.rest &&
                        '\\' !in r.output && '\'' !in r.output
  {
    Delimited("'", {'\\', '\''}, "'", input)
  }

  /** `parse_tick`: a backtick, a body without `\` or backtick, a backtick. */
  function ParseTick(input: string): (r: IResult<string>)
    ensures r.Done? ==> r.output != [] && input == "`" + r.output + "`" + r.rest &&
                        '\\' !in r.output && '`' !in r.output
  {
    Delimited("`", {'\\', '`'}, "`", input)
  }

  /** `parse_multi_tick`: three backticks on each side; `is_not("\\```")`
      excludes every single backtick from the body. */
  function ParseMultiTick(input: string): (r: IResult<string>)
    ensures r.Done? ==> r.output != [] && input == "```" + r.output + "```" + r.rest &&
                        '\\' !in r.output && '`' !in r.output
  {
    Delimited("```", {'\\', '`'}, "```", input)
  }

  /** `parse_gt_lt`: `<<`, a body without `\` or any `>`, `>>`. */
  function ParseGtLt(input: string): (r: IResult<string>)
    ensures r.Done? ==> r.output != [] && input == "<<" + r.output + ">>" + r.rest &&
                        '\\' !in r.output && '>' !in r.output
  {
    Delimited("<<", {'\\', '>'}, ">>", input)
  }

  /** `parse_guillemets`: «, a body without `\` or », ». */
  function ParseGuillemets(input: string): (r: IResult<string>)
    ensures r.Done? ==> r.output != [] && input == [GUILLEMET_OPEN] + r.output + [GUILLEMET_CLOSE] + r.rest &&
                        '\\' !in r.output && GUILLEMET_CLOSE !in r.output
  {
    Delimited([GUILLEMET_OPEN], {'\\', GUILLEMET_CLOSE}, [GUILLEMET_CLOSE], input)
  }

  /** A quoted literal, tagged with its delimiters. */
  datatype Quote =
    | Chars(s: string)
    | GtLt(s: string)
    | Guillemets(s: string)
    | MultiTick(s: string)
    | Str(s: string)
    | Tick(s: string)

  function Opening(q: Quote): string {
    match q
    case Chars(_) => "'"
    case GtLt(_) => "<<"
    case Guillemets(_) => [GUILLEMET_OPEN]
    case MultiTick(_) => "```"
    case Str(_) => "\""
    case Tick(_) => "`"
  }

  function Closing(q: Quote): string {
    match q
    case Chars(_) => "'"
    case GtLt(_) => ">>"
    case Guillemets(_) => [GUILLEMET_CLOSE]
    case MultiTick(_) => "```"
    case Str(_) => "\""
    case Tick(_) => "`"
  }

  /** `Quote::as_str`: the captured body, whatever the delimiters. */
  function AsStr(q: Quote): (s: string)
    ensures s == q.s
  {
    match q
    case Chars(s) => s
    case GtLt(s) => s
    case Guillemets(s) => s
    case MultiTick(s) => s
    case Str(s) => s
    case Tick(s) => s
  }

  /** `parse_quote`: `alt` over chars, gt_lt, guillemets, multi_tick, str and
      tick, in that order. The first success wins; when all fail, `alt`
      reports the last alternative's error. */
  function ParseQuote(input: string): (r: IResult<Quote>)
    ensures r.Done? <==>
              ParseChars(input).Done? || ParseGtLt(input).Done? || ParseGuillemets(input).Done? ||
              ParseMultiTick(input).Done? || ParseStr(input).Done? || ParseTick(input).Done?
    ensures r.Done? ==> AsStr(r.output) != [] &&
                        input == Opening(r.output) + AsStr(r.output) + Closing(r.output) + r.rest
    ensures r.Fail? ==> r.at == ParseTick(input).at
  {
    match ParseChars(input)
    case Done(rest, s) => Done(rest, Chars(s))
    case Fail(_) =>
      match ParseGtLt(input)
      case Done(rest, s) => Done(rest, GtLt(s))
      case Fail(_) =>
        match ParseGuillemets(input)
        case Done(rest, s) => Done(rest, Guillemets(s))
        case Fail(_) =>
          match ParseMultiTick(input)
          case Done(rest, s) => Done(rest, MultiTick(s))
          case Fail(_) =>
            match ParseStr(input)
            case Done(rest, s) => Done(rest, Str(s))
            case Fail(_) =>
              match ParseTick(input)
              case Done(rest, s) => Done(rest, Tick(s))
              case Fail(at) => Fail(at)
  }

  // ---------------------------------------------------------------------------
  // Properties of the literal grammar.

  /** A delimited parser fails on input that does not start like its opening
      delimiter. */
  lemma OpeningMismatch(open: string, stop: set<char>, close: string, input: string)
    requires open != [] && input != [] && open[0] != input[0]
    ensures Delimited(open, stop, close, input).Fail?
  {
  }

  /** At most one literal parser accepts any input: the openings differ, and
      a single backtick followed by another cannot open a tick literal. So
      the order of the `alt` decides nothing. */
  lemma QuoteParsersExclusive(input: string)
    ensures (if ParseChars(input).Done? then 1 else 0) + (if ParseGtLt(input).Done? then 1 else 0) +
            (if ParseGuillemets(input).Done? then 1 else 0) + (if ParseMultiTick(input).Done? then 1 else 0) +
            (if ParseStr(input).Done? then 1 else 0) + (if ParseTick(input).Done? then 1 else 0) <= 1
  {
    LiteralOpenings(input);
    TickOpenings(input);
  }

  /** The first character each literal parser demands. */
  lemma LiteralOpenings(input: string)
    ensures ParseChars(input).Done? ==> input != [] && input[0] == '\''
    ensures ParseGtLt(input).Done? ==> input != [] && input[0] == '<'
    ensures ParseGuillemets(input).Done? ==> input != [] && input[0] == GUILLEMET_OPEN
    ensures ParseStr(input).Done? ==> input != [] && input[0] == '"'
    ensures ParseMultiTick(input).Done? || ParseTick(input).Done? ==> input != [] && input[0] == '`'
  {
  }

  /** The second character tells the two backtick literals apart. */
  lemma TickOpenings(input: string)
    ensures ParseMultiTick(input).Done? ==> |input| > 1 && input[1] == '`'
    ensures ParseTick(input).Done? ==> |input| > 1 && input[1] != '`'
  {
    var multi, tick := ParseMultiTick(input), ParseTick(input);
    if multi.Done? {
      assert input == "```" + multi.output + "```" + multi.rest;
      assert input[1] == '`';
    }
    if tick.Done? {
      assert input == "`" + tick.output + "`" + tick.rest;
      assert input[1] == tick.output[0] && input[1] != '`';
    }
  }

  /** Tick and triple-tick share their first character; a tick literal's body
      never starts with a backtick, so the triple-tick parser refuses it. */
  lemma TickNotMultiTick(s: string, rest: string)
    requires s != [] && '`' !in s
    ensures ParseMultiTick("`" + s + "`" + rest).Fail?
  {
    var input := "`" + s + "`" + rest;
    assert input[1] == s[0];
    assert !("```" <= input) by {
      assert input[..3][1] != '`';
    }
  }

  /** Every literal is read back by `parse_quote` as its own kind with its own
      body, when the body is non-empty and avoids the kind's excluded
      characters. */
  lemma ParseQuoteReads(q: Quote, rest: string)
    requires q.s != [] && '\\' !in q.s
    requires q.Str? ==> '"' !in q.s
    requires q.Chars? ==> '\'' !in q.s
    requires q.Tick? || q.MultiTick? ==> '`' !in q.s
    requires q.GtLt? ==> '>' !in q.s
    requires q.Guillemets? ==> GUILLEMET_CLOSE !in q.s
    ensures ParseQuote(Opening(q) + q.s + Closing(q) + rest) == Done(rest, q)
  {
    var input := Opening(q) + q.s + Closing(q) + rest;
    assert input[0] == Opening(q)[0];
    match q
    case Chars(s) =>
      DelimitedAccepts("'", {'\\', '\''}, "'", s, rest);
    case GtLt(s) =>
      OpeningMismatch("'", {'\\', '\''}, "'", input);
      DelimitedAccepts("<<", {'\\', '>'}, ">>", s, rest);
    case Guillemets(s) =>
      OpeningMismatch("'", {'\\', '\''}, "'", input);
      OpeningMismatch("<<", {'\\', '>'}, ">>", input);
      DelimitedAccepts([GUILLEMET_OPEN], {'\\', GUILLEMET_CLOSE}, [GUILLEMET_CLOSE], s, rest);
    case MultiTick(s) =>
      OpeningMismatch("'", {'\\', '\''}, "'", input);
      OpeningMismatch("<<", {'\\', '>'}, ">>", input);
      OpeningMismatch([GUILLEMET_OPEN], {'\\', GUILLEMET_CLOSE}, [GUILLEMET_CLOSE], input);
      DelimitedAccepts("```", {'\\', '`'}, "```", s, rest);
    case Str(s) =>
      OpeningMismatch("'", {'\\', '\''}, "'", input);
      OpeningMismatch("<<", {'\\', '>'}, ">>", input);
      OpeningMismatch([GUILLEMET_OPEN], {'\\', GUILLEMET_CLOSE}, [GUILLEMET_CLOSE], input);
      OpeningMismatch("```", {'\\', '`'}, "```", input);
      DelimitedAccepts("\"", {'\\', '"'}, "\"", s, rest);
    case Tick(s) =>
      OpeningMismatch("'", {'\\', '\''}, "'", input);
      OpeningMismatch("<<", {'\\', '>'}, ">>", input);
      OpeningMismatch([GUILLEMET_OPEN], {'\\', GUILLEMET_CLOSE}, [GUILLEMET_CLOSE], input);
      TickNotMultiTick(s, rest);
      OpeningMismatch("\"", {'\\', '"'}, "\"", input);
      DelimitedAccepts("`", {'\\', '`'}, "`", s, rest);
  }

  /** The empty literal is refused, though the prototype's unit test expects
      it to parse. */
  lemma EmptyStrRejected()
    ensures ParseStr("\"\"").Fail?
  {
    assert RunLen("\"", {'\\', '"'}) == 0;
  }

  /** An escaped quote ends the body at the backslash, where no closing quote
      follows, so the literal is refused (the unit test expects success). */
  lemma EscapedQuoteRejected()
    ensures ParseStr("\"a\\\"b\"").Fail?
  {
    var after := "a\\\"b\"";
    assert "\"a\\\"b\""[1..] == after;
    assert RunLen(after, {'\\', '"'}) == 1 by {
      assert after[1] == '\\';
    }
    assert after[1..][0] == '\\';
  }

  /** In an accepted string literal, the first quote after the opening one
      closes it, and no backslash comes before that quote. */
  lemma {:induction false} StrBodyEndsAtQuote(input: string, k: nat)
    requires ParseStr(input).Done? && 1 + k < |input|
    ensures input[1 + k] != '\\' || '"' in input[1..1 + k]
  {
    var out := ParseStr(input).output;
    assert input == "\"" + out + "\"" + ParseStr(input).rest;
    if k < |out| {
      assert input[1 + k] == out[k];
    } else {
      assert input[1 + |out|] == '"';
      if |out| < k {
        assert input[1..1 + k][|out|] == '"';
      }
    }
  }

  /** Any string literal with a backslash before its first closing quote is
      refused: the body stops at the backslash, and no quote follows there. */
  lemma BackslashBeforeQuoteRejected(input: string, k: nat)
    requires 1 + k < |input| && input[1 + k] == '\\' && '"' !in input[1..1 + k]
    ensures ParseStr(input).Fail?
  {
    if ParseStr(input).Done? {
      StrBodyEndsAtQuote(input, k);
    }
  }

  /** A literal must start at the first character, and must be closed. */
  lemma StrNeedsDelimiters()
    ensures ParseStr(" \"").Fail?
    ensures ParseStr("").Fail?
    ensures ParseStr("\"no").Fail?
  {
    var after := "no";
    assert "\"no"[1..] == after;
    assert RunLen(after, {'\\', '"'}) == 2 by {
      assert RunLen(after[1..], {'\\', '"'}) == 1;
    }
  }

  /** Because `is_not` reads its argument as a set, a single `>` ends a
      `<<…>>` body and a single backtick ends a triple-backtick body. */
  lemma SetNotWord()
    ensures ParseGtLt("<<a>b>>").Fail?
    ensures ParseMultiTick("```a`b```").Fail?
  {
    var g := "a>b>>";
    assert "<<a>b>>"[2..] == g;
    assert RunLen(g, {'\\', '>'}) == 1 by {
      assert g[1] == '>';
    }
    assert g[1..][..2][1] == 'b';
    var m := "a`b```";
    assert "```a`b```"[3..] == m;
    assert RunLen(m, {'\\', '`'}) == 1 by {
      assert m[1] == '`';
    }
    assert m[1..][..3][1] == 'b';
  }
}
