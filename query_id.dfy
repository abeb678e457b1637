/** The human-readable query identifiers of front/src/id.rs: `proj=N`,
    `proj=N&doc=N` and `proj=N&doc=N&card=N` with 64-bit decimal values, read
    back by a chain of `tag`, `digit1` and `str::parse`, and bound to serde as
    that string. */
module QueryId {
  import opened Chars
  import opened Outcomes

  datatype Proj = Proj(value: u64)
  datatype Doc = Doc(value: u64, proj: Proj)
  datatype Card = Card(value: u64, doc: Doc)

  const PROJ_TAG := "proj="
  const DOC_TAG := "&doc="
  const CARD_TAG := "&card="

  // ---------------------------------------------------------------------------
  // Display: the parent's form, the level's tag, the value in decimal.

  function ProjDisplay(p: Proj): string { PROJ_TAG + Decimal(p.value) }
  function DocDisplay(d: Doc): string { ProjDisplay(d.proj) + DOC_TAG + Decimal(d.value) }
  function CardDisplay(c: Card): string { DocDisplay(c.doc) + CARD_TAG + Decimal(c.value) }

  // ---------------------------------------------------------------------------
  // The nom pieces.

  /** `tag(t)`: succeeds exactly when `t` is a prefix of the input, consuming it. */
  function Tag(t: string, input: string): (r: IResult<()>)
    ensures r.Done? <==> t <= input
    ensures r.Done? ==> r.rest == input[|t|..]
  {
    if t <= input then Done(input[|t|..], ()) else Fail(input)
  }

  /** The number of ASCII digits the input starts with. */
  function DigitRun(s: string): (k: nat)
    ensures k <= |s|
    ensures forall i | 0 <= i < k :: IsDigit(s[i])
    ensures k < |s| ==> !IsDigit(s[k])
  {
    if s == [] || !IsDigit(s[0]) then 0 else 1 + DigitRun(s[1..])
  }

  /** `map_res(recognize(digit1), str::parse)` into a `u64`: the longest non-empty
      run of leading digits, whose value must fit 64 bits. */
  function ParseNumber(input: string): (r: IResult<u64>)
    ensures r.Done? <==> DigitRun(input) > 0 && DigitsValue(input[..DigitRun(input)]) < TWO_POW_64
    ensures r.Done? ==> r.rest == input[DigitRun(input)..] &&
                        r.output == DigitsValue(input[..DigitRun(input)])
  {
    var k := DigitRun(input);
    if k == 0 then Fail(input)
    else
      var v := DigitsValue(input[..k]);
      if v < TWO_POW_64 then Done(input[k..], v) else Fail(input)
  }

  /** `tag(t)` followed by a number. */
  function ParseTagged(t: string, input: string): (r: IResult<u64>)
    ensures r.Done? <==> t <= input && ParseNumber(input[|t|..]).Done?
    ensures r.Done? ==> r == ParseNumber(input[|t|..])
  {
    match Tag(t, input)
    case Fail(at) => Fail(at)
    case Done(rest, _) => ParseNumber(rest)
  }

  function ParseProjId(input: string): (r: IResult<Proj>)
    ensures r.Done? <==> ParseTagged(PROJ_TAG, input).Done?
    ensures r.Done? ==> r.rest == ParseTagged(PROJ_TAG, input).rest &&
                        r.output == Proj(ParseTagged(PROJ_TAG, input).output)
  {
    match ParseTagged(PROJ_TAG, input)
    case Fail(at) => Fail(at)
    case Done(rest, v) => Done(rest, Proj(v))
  }

  function ParseDocId(input: string): (r: IResult<Doc>)
    ensures r.Done? <==> ParseProjId(input).Done? && ParseTagged(DOC_TAG, ParseProjId(input).rest).Done?
    ensures r.Done? ==> r.rest == ParseTagged(DOC_TAG, ParseProjId(input).rest).rest &&
                        r.output == Doc(ParseTagged(DOC_TAG, ParseProjId(input).rest).output, ParseProjId(input).output)
  {
    match ParseProjId(input)
    case Fail(at) => Fail(at)
    case Done(rest, proj) =>
      match ParseTagged(DOC_TAG, rest)
      case Fail(at) => Fail(at)
      case Done(rest', v) => Done(rest', Doc(v, proj))
  }

  function ParseCardId(input: string): (r: IResult<Card>)
    ensures r.Done? <==> ParseDocId(input).Done? && ParseTagged(CARD_TAG, ParseDocId(input).rest).Done?
    ensures r.Done? ==> r.rest == ParseTagged(CARD_TAG, ParseDocId(input).rest).rest &&
                        r.output == Card(ParseTagged(CARD_TAG, ParseDocId(input).rest).output, ParseDocId(input).output)
  {
    match ParseDocId(input)
    case Fail(at) => Fail(at)
    case Done(rest, doc) =>
      match ParseTagged(CARD_TAG, rest)
      case Fail(at) => Fail(at)
      case Done(rest', v) => Done(rest', Card(v, doc))
  }

  // ---------------------------------------------------------------------------
  // Conversions.

  /** `From<u64> for proj::Id`: the number shown after `proj=`. */
  function ProjFromU64(v: u64): (p: Proj)
    ensures ProjDisplay(p) == PROJ_TAG + Decimal(v)
  {
    Proj(v)
  }

  /** `From<doc::Id> for u64`: the number shown last in the document's form. */
  function DocIntoU64(d: Doc): (v: u64)
    ensures DocDisplay(d) == ProjDisplay(d.proj) + DOC_TAG + Decimal(v)
  {
    d.value
  }

  /** `From<card::Id> for u64`: the number shown last in the card's form. */
  function CardIntoU64(c: Card): (v: u64)
    ensures CardDisplay(c) == DocDisplay(c.doc) + CARD_TAG + Decimal(v)
  {
    c.value
  }

  // ---------------------------------------------------------------------------
  // serde: `serialize` writes the `Display` form; each visitor runs the parser,
  // drops what it did not consume and maps any failure to "invalid format".

  const INVALID_FORMAT := "invalid format"

  function SerializeProj(p: Proj): string { ProjDisplay(p) }
  function SerializeDoc(d: Doc): string { DocDisplay(d) }
  function SerializeCard(c: Card): string { CardDisplay(c) }

  function DeserializeProj(s: string): (r: Result<Proj, string>)
    ensures r.Err? <==> ParseProjId(s).Fail?
    ensures r.Ok? ==> r.value == ParseProjId(s).output
    ensures r.Err? ==> r.error == INVALID_FORMAT
  {
    match ParseProjId(s)
    case Done(_, id) => Ok(id)
    case Fail(_) => Err(INVALID_FORMAT)
  }

  function DeserializeDoc(s: string): (r: Result<Doc, string>)
    ensures r.Err? <==> ParseDocId(s).Fail?
    ensures r.Ok? ==> r.value == ParseDocId(s).output
    ensures r.Err? ==> r.error == INVALID_FORMAT
  {
    match ParseDocId(s)
    case Done(_, id) => Ok(id)
    case Fail(_) => Err(INVALID_FORMAT)
  }

  function DeserializeCard(s: string): (r: Result<Card, string>)
    ensures r.Err? <==> ParseCardId(s).Fail?
    ensures r.Ok? ==> r.value == ParseCardId(s).output
    ensures r.Err? ==> r.error == INVALID_FORMAT
  {
    match ParseCardId(s)
    case Done(_, id) => Ok(id)
    case Fail(_) => Err(INVALID_FORMAT)
  }

  // ---------------------------------------------------------------------------
  // Properties.

  /** Input that cannot extend a digit run. */
  predicate NoDigitAhead(rest: string) {
    rest == [] || !IsDigit(rest[0])
  }

  /** The digit run of a digit string followed by a non-digit is that string. */
  lemma {:induction false} DigitRunOfDigits(d: string, rest: string)
    requires AllDigits(d) && NoDigitAhead(rest)
    ensures DigitRun(d + rest) == |d|
  {
    if d != [] {
      assert (d + rest)[1..] == d[1..] + rest;
      DigitRunOfDigits(d[1..], rest);
    } else {
      assert d + rest == rest;
    }
  }

  /** A number written by `{}` and followed by a non-digit is read back whole. */
  lemma NumberParses(n: u64, rest: string)
    requires NoDigitAhead(rest)
    ensures ParseNumber(Decimal(n) + rest) == Done(rest, n)
  {
    var d := Decimal(n);
    var s := d + rest;
    DigitRunOfDigits(d, rest);
    assert s[..|d|] == d;
    assert s[|d|..] == rest;
  }

  lemma TaggedParses(t: string, n: u64, rest: string)
    requires NoDigitAhead(rest)
    ensures ParseTagged(t, t + Decimal(n) + rest) == Done(rest, n)
  {
    var s := t + Decimal(n) + rest;
    assert t <= s;
    assert s[|t|..] == Decimal(n) + rest;
    NumberParses(n, rest);
  }

  /** Parsing a project's form followed by anything but a digit yields the
      project and leaves exactly that rest. */
  lemma ProjFormParses(p: Proj, rest: string)
    requires NoDigitAhead(rest)
    ensures ParseProjId(ProjDisplay(p) + rest) == Done(rest, p)
  {
    TaggedParses(PROJ_TAG, p.value, rest);
  }

  lemma DocFormParses(d: Doc, rest: string)
    requires NoDigitAhead(rest)
    ensures ParseDocId(DocDisplay(d) + rest) == Done(rest, d)
  {
    var tail := DOC_TAG + Decimal(d.value) + rest;
    assert DocDisplay(d) + rest == ProjDisplay(d.proj) + tail;
    ProjFormParses(d.proj, tail);
    TaggedParses(DOC_TAG, d.value, rest);
  }

  lemma CardFormParses(c: Card, rest: string)
    requires NoDigitAhead(rest)
    ensures ParseCardId(CardDisplay(c) + rest) == Done(rest, c)
  {
    var tail := CARD_TAG + Decimal(c.value) + rest;
    assert CardDisplay(c) + rest == DocDisplay(c.doc) + tail;
    DocFormParses(c.doc, tail);
    TaggedParses(CARD_TAG, c.value, rest);
  }

  /** Parsing the `Display` string of any id yields that id, with nothing left. */
  lemma ParseInvertsDisplay(p: Proj, d: Doc, c: Card)
    ensures ParseProjId(ProjDisplay(p)) == Done([], p)
    ensures ParseDocId(DocDisplay(d)) == Done([], d)
    ensures ParseCardId(CardDisplay(c)) == Done([], c)
  {
    ProjFormParses(p, []);
    assert ProjDisplay(p) + [] == ProjDisplay(p);
    DocFormParses(d, []);
    assert DocDisplay(d) + [] == DocDisplay(d);
    CardFormParses(c, []);
    assert CardDisplay(c) + [] == CardDisplay(c);
  }

  /** What serde writes, serde reads back unchanged. */
  lemma DeserializeInvertsSerialize(p: Proj, d: Doc, c: Card)
    ensures DeserializeProj(SerializeProj(p)) == Ok(p)
    ensures DeserializeDoc(SerializeDoc(d)) == Ok(d)
    ensures DeserializeCard(SerializeCard(c)) == Ok(c)
  {
    ParseInvertsDisplay(p, d, c);
  }

  /** A visitor reading a longer form returns the ancestor it starts with and
      ignores the leftover. */
  lemma DeserializeReadsAncestor(d: Doc, c: Card)
    ensures DeserializeProj(SerializeDoc(d)) == Ok(d.proj)
    ensures DeserializeDoc(SerializeCard(c)) == Ok(c.doc)
  {
    var docTail := DOC_TAG + Decimal(d.value);
    assert DocDisplay(d) == ProjDisplay(d.proj) + docTail;
    ProjFormParses(d.proj, docTail);
    var cardTail := CARD_TAG + Decimal(c.value);
    assert CardDisplay(c) == DocDisplay(c.doc) + cardTail;
    DocFormParses(c.doc, cardTail);
  }

  /** Leading zeros are accepted, so formatting what was parsed need not give
      back the input. */
  lemma LeadingZerosAccepted()
    ensures ParseProjId("proj=007") == Done([], Proj(7))
    ensures ProjDisplay(Proj(7)) == "proj=7"
  {
    var s := "proj=007";
    assert PROJ_TAG <= s;
    var digits := s[5..];
    assert digits == "007";
    assert DigitRun("7") == 1 by { assert "7"[1..] == []; }
    assert DigitRun("07") == 2 by { assert "07"[1..] == "7"; }
    assert DigitRun(digits) == 3 by { assert digits[1..] == "07"; }
    assert digits[..3] == digits;
    assert DigitsValue("0") == 0 by { assert "0"[..0] == []; }
    assert DigitsValue("00") == 0 by { assert "00"[..1] == "0"; }
    assert DigitsValue("007") == 7 by { assert "007"[..2] == "00"; }
    assert digits[3..] == [];
  }

  /** A number of 2^64 or more is rejected, so the id fails to parse. */
  lemma OverflowRejected(n: nat, rest: string)
    requires n >= TWO_POW_64
    requires NoDigitAhead(rest)
    ensures ParseProjId(PROJ_TAG + Decimal(n) + rest).Fail?
  {
    var d := Decimal(n);
    var s := PROJ_TAG + d + rest;
    assert s[|PROJ_TAG|..] == d + rest;
    NumberOverflows(d, rest);
  }

  lemma NumberOverflows(d: string, rest: string)
    requires AllDigits(d) && NoDigitAhead(rest) && DigitsValue(d) >= TWO_POW_64
    ensures ParseNumber(d + rest).Fail?
  {
    DigitRunOfDigits(d, rest);
    assert (d + rest)[..|d|] == d;
  }

  /** The grammar: a project id is exactly the tag, one or more digits, and a
      value below 2^64; anything else is an error. */
  lemma ProjIdGrammar(s: string)
    ensures ParseProjId(s).Done? <==>
              PROJ_TAG <= s && DigitRun(s[5..]) > 0 && DigitsValue(s[5..][..DigitRun(s[5..])]) < TWO_POW_64
    ensures ParseProjId(s).Done? ==>
              ParseProjId(s).output.value == DigitsValue(s[5..][..DigitRun(s[5..])])
  {
  }
}
