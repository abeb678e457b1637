/** The compact identifier codec of schling-common/src/id.rs: a project, a
    document inside it and a section inside that, each written as eight
    upper-case hex digits per level with no separator, parsed back with nom,
    ordered by their own value only, and bound to serde as strings. */
module HexId {
  import opened Chars
  import opened Outcomes

  datatype Proj = Proj(value: u32)
  datatype Doc = Doc(proj: Proj, value: u32)
  datatype Sec = Sec(value: u32, doc: Doc)

  // ---------------------------------------------------------------------------
  // Formatting: `From<_> for String`, and `Display`, which writes that string.

  /** `String::from(proj)`: eight upper-case hex digits denoting the value. */
  function ProjString(p: Proj): (s: string)
    ensures |s| == 8 && AllUpperHex(s) && AllHex(s) && HexValue(s) == p.value
  {
    Hex8(p.value)
  }

  /** `Display` of every id writes its `String` form (the `serde_str!` macro). */
  function ProjDisplay(p: Proj): string { ProjString(p) }

  /** `String::from(doc)`: the project's token, then eight digits of the value. */
  function DocString(d: Doc): (s: string)
    ensures |s| == 16 && AllUpperHex(s) && AllHex(s)
    ensures s[..8] == ProjString(d.proj) && HexValue(s[8..]) == d.value
  {
    var s := ProjDisplay(d.proj) + Hex8(d.value);
    assert s[8..] == Hex8(d.value);
    s
  }

  function DocDisplay(d: Doc): string { DocString(d) }

  /** `String::from(sec)`: the document's token, then eight digits of the value. */
  function SecString(s: Sec): (t: string)
    ensures |t| == 24 && AllUpperHex(t) && AllHex(t)
    ensures t[..16] == DocString(s.doc) && HexValue(t[16..]) == s.value
  {
    var t := DocDisplay(s.doc) + Hex8(s.value);
    assert t[16..] == Hex8(s.value);
    t
  }

  function SecDisplay(s: Sec): string { SecString(s) }

  // ---------------------------------------------------------------------------
  // Parsing.

  /** How many of the first `n` characters of `s` are hex digits in a row: the
      scan of nom's `take_while_m_n(m, n, is_hex_digit)`. */
  function HexRun(s: string, n: nat): (k: nat)
    ensures k <= n && k <= |s|
    ensures forall i | 0 <= i < k :: IsHexDigit(s[i])
    ensures k < n && k < |s| ==> !IsHexDigit(s[k])
  {
    if n == 0 || s == [] || !IsHexDigit(s[0]) then 0 else 1 + HexRun(s[1..], n - 1)
  }

  /** `from_hex8`: `u32::from_str_radix(s, 16)`, which fails on overflow. */
  function FromHex8(s: string): Result<u32, string>
    requires AllHex(s)
  {
    var v := HexValue(s);
    if v < TWO_POW_32 then Ok(v) else Err(s)
  }

  /** `parse_hex8`: takes exactly eight hex digits (either case) and converts
      them; fewer than eight leading hex digits is an error. */
  function ParseHex8(input: string): (r: IResult<u32>)
    ensures r.Done? <==> |input| >= 8 && AllHex(input[..8])
    ensures r.Done? ==> r.rest == input[8..] && r.output == HexValue(input[..8])
  {
    var k := HexRun(input, 8);
    if k < 8 then Fail(input)
    else
      Hex8Fits(input[..8]);
      match FromHex8(input[..8])
      case Ok(v) => Done(input[8..], v)
      case Err(_) => Fail(input)
  }

  function ParseProj(input: string): IResult<Proj> {
    match ParseHex8(input)
    case Fail(at) => Fail(at)
    case Done(rest, v) => Done(rest, Proj(v))
  }

  function ParseDoc(input: string): IResult<Doc> {
    match ParseProj(input)
    case Fail(at) => Fail(at)
    case Done(rest, proj) =>
      match ParseHex8(rest)
      case Fail(at) => Fail(at)
      case Done(rest', v) => Done(rest', Doc(proj, v))
  }

  function ParseSec(input: string): IResult<Sec> {
    match ParseDoc(input)
    case Fail(at) => Fail(at)
    case Done(rest, doc) =>
      match ParseHex8(rest)
      case Fail(at) => Fail(at)
      case Done(rest', v) => Done(rest', Sec(v, doc))
  }

  /** `FromStr`: the parser's output with the unconsumed rest dropped; a failure
      carries the input at which nom gave up (its message text is not modelled). */
  function ProjFromStr(s: string): Result<Proj, string> {
    match ParseProj(s)
    case Done(_, p) => Ok(p)
    case Fail(at) => Err(at)
  }

  function DocFromStr(s: string): Result<Doc, string> {
    match ParseDoc(s)
    case Done(_, d) => Ok(d)
    case Fail(at) => Err(at)
  }

  function SecFromStr(s: string): Result<Sec, string> {
    match ParseSec(s)
    case Done(_, d) => Ok(d)
    case Fail(at) => Err(at)
  }

  // ---------------------------------------------------------------------------
  // Round trips and the grammar accepted.

  lemma ParseHex8OfToken(v: u32, rest: string)
    ensures ParseHex8(Hex8(v) + rest) == Done(rest, v)
  {
    var s := Hex8(v) + rest;
    assert s[..8] == Hex8(v);
    assert s[8..] == rest;
  }

  /** Parsing a project token followed by anything yields the project and leaves
      exactly the rest. */
  lemma ProjTokenParses(p: Proj, rest: string)
    ensures ParseProj(ProjString(p) + rest) == Done(rest, p)
  {
    ParseHex8OfToken(p.value, rest);
  }

  lemma DocTokenParses(d: Doc, rest: string)
    ensures ParseDoc(DocString(d) + rest) == Done(rest, d)
  {
    assert DocString(d) + rest == ProjString(d.proj) + (Hex8(d.value) + rest);
    ProjTokenParses(d.proj, Hex8(d.value) + rest);
    ParseHex8OfToken(d.value, rest);
  }

  lemma SecTokenParses(s: Sec, rest: string)
    ensures ParseSec(SecString(s) + rest) == Done(rest, s)
  {
    assert SecString(s) + rest == DocString(s.doc) + (Hex8(s.value) + rest);
    DocTokenParses(s.doc, Hex8(s.value) + rest);
    ParseHex8OfToken(s.value, rest);
  }

  /** `from_str(String::from(id)) == Ok(id)` at every level. */
  lemma FromStrInvertsString(p: Proj, d: Doc, s: Sec)
    ensures ProjFromStr(ProjString(p)) == Ok(p)
    ensures DocFromStr(DocString(d)) == Ok(d)
    ensures SecFromStr(SecString(s)) == Ok(s)
  {
    ProjTokenParses(p, []);
    assert ProjString(p) + [] == ProjString(p);
    DocTokenParses(d, []);
    assert DocString(d) + [] == DocString(d);
    SecTokenParses(s, []);
    assert SecString(s) + [] == SecString(s);
  }

  /** `from_str` ignores what follows the consumed prefix, so a shorter id type
      read from a longer token yields the ancestor. */
  lemma FromStrReadsAncestor(d: Doc, s: Sec, rest: string)
    ensures ProjFromStr(DocString(d) + rest) == Ok(d.proj)
    ensures DocFromStr(SecString(s) + rest) == Ok(s.doc)
    ensures ProjFromStr(SecString(s) + rest) == Ok(s.doc.proj)
  {
    assert DocString(d) + rest == ProjString(d.proj) + (Hex8(d.value) + rest);
    ProjTokenParses(d.proj, Hex8(d.value) + rest);
    assert SecString(s) + rest == DocString(s.doc) + (Hex8(s.value) + rest);
    DocTokenParses(s.doc, Hex8(s.value) + rest);
    assert SecString(s) + rest == ProjString(s.doc.proj) + (Hex8(s.doc.value) + Hex8(s.value) + rest);
    ProjTokenParses(s.doc.proj, Hex8(s.doc.value) + Hex8(s.value) + rest);
  }

  /** A document parse succeeds exactly when the first sixteen characters are hex
      digits: it fails as a whole when either eight-digit field fails, and the
      two fields are the project's and the document's values. */
  lemma DocFromStrAccepts(s: string)
    ensures DocFromStr(s).Ok? <==> |s| >= 16 && AllHex(s[..16])
    ensures DocFromStr(s).Ok? ==>
              DocFromStr(s).value.proj.value == HexValue(s[..8]) &&
              DocFromStr(s).value.value == HexValue(s[8..16])
  {
    if |s| >= 8 && AllHex(s[..8]) {
      var rest := s[8..];
      assert |rest| >= 8 ==> rest[..8] == s[8..16];
      if |s| >= 16 && !AllHex(s[..16]) {
        var i :| 0 <= i < 16 && !IsHexDigit(s[i]);
        assert i >= 8;
        assert !IsHexDigit(rest[i - 8]);
      }
    } else if |s| >= 16 {
      assert s[..16][..8] == s[..8];
    }
  }

  /** A section parse succeeds exactly when the first twenty-four characters are
      hex digits. */
  lemma SecFromStrAccepts(s: string)
    ensures SecFromStr(s).Ok? <==> |s| >= 24 && AllHex(s[..24])
  {
    DocFromStrAccepts(s);
    if DocFromStr(s).Ok? {
      var rest := s[16..];
      assert ParseDoc(s) == Done(rest, DocFromStr(s).value);
      assert |rest| >= 8 ==> rest[..8] == s[16..24];
      if |s| >= 24 && !AllHex(s[..24]) {
        var i :| 0 <= i < 24 && !IsHexDigit(s[i]);
        assert i >= 16;
        assert !IsHexDigit(rest[i - 16]);
      }
    } else if |s| >= 24 {
      assert s[..24][..16] == s[..16];
    }
  }

  lemma LowerTokenValue()
    ensures AllHex("0000abcd") && HexValue("0000abcd") == 0xABCD
  {
    assert HexValue("0") == 0 by { assert "0"[..0] == []; }
    assert HexValue("00") == 0 by { assert "00"[..1] == "0"; }
    assert HexValue("000") == 0 by { assert "000"[..2] == "00"; }
    assert HexValue("0000") == 0 by { assert "0000"[..3] == "000"; }
    assert HexValue("0000a") == 0xA by { assert "0000a"[..4] == "0000"; }
    assert HexValue("0000ab") == 0xAB by { assert "0000ab"[..5] == "0000a"; }
    assert HexValue("0000abc") == 0xABC by { assert "0000abc"[..6] == "0000ab"; }
    assert "0000abcd"[..7] == "0000abc";
  }

  /** Lower-case digits are accepted on input, although formatting writes upper case. */
  lemma LowerCaseAccepted()
    ensures ProjFromStr("0000abcd") == Ok(Proj(0xABCD))
  {
    LowerTokenValue();
    assert "0000abcd"[..8] == "0000abcd";
  }

  lemma UpperCaseWritten()
    ensures ProjString(Proj(0xABCD)) == "0000ABCD"
  {
    var z1 := HexDigits(0, 1);
    assert z1 == ['0'] by { assert HexDigits(0, 0) == []; }
    var z2 := HexDigits(0, 2);
    assert z2 == "00";
    var z3 := HexDigits(0, 3);
    assert z3 == "000";
    var z4 := HexDigits(0, 4);
    assert z4 == "0000";
    var a5 := HexDigits(0xA, 5);
    assert a5 == "0000A";
    var b6 := HexDigits(0xAB, 6);
    assert b6 == "0000AB";
    var c7 := HexDigits(0xABC, 7);
    assert c7 == "0000ABC";
    var d8 := HexDigits(0xABCD, 8);
    assert d8 == "0000ABCD";
  }

  // ---------------------------------------------------------------------------
  // Ordering: `ord_by!(T, value)` defines `partial_cmp` on `value` alone, while
  // `==` is derived over every field.

  function ProjPartialCmp(a: Proj, b: Proj): Option<Ordering> {
    Some(CmpNat(a.value, b.value))
  }

  function DocPartialCmp(a: Doc, b: Doc): Option<Ordering> {
    Some(CmpNat(a.value, b.value))
  }

  function SecPartialCmp(a: Sec, b: Sec): Option<Ordering> {
    Some(CmpNat(a.value, b.value))
  }

  /** Documents (sections) compare `Equal` exactly when their own values agree,
      whatever their parents, so `Equal` does not imply `==`. */
  lemma PartialCmpIgnoresParents(a: Doc, b: Doc, x: Sec, y: Sec)
    ensures DocPartialCmp(a, b) == Some(Equal) <==> a.value == b.value
    ensures SecPartialCmp(x, y) == Some(Equal) <==> x.value == y.value
    ensures a == b ==> DocPartialCmp(a, b) == Some(Equal)
    ensures DocPartialCmp(Doc(Proj(0), 1), Doc(Proj(1), 1)) == Some(Equal)
    ensures Doc(Proj(0), 1) != Doc(Proj(1), 1)
  {
  }

  // ---------------------------------------------------------------------------
  // serde: `serialize` writes the `String` form; every visitor runs `from_str`
  // and maps any failure to the one message "invalid format".

  const INVALID_FORMAT := "invalid format"

  function SerializeProj(p: Proj): string { ProjString(p) }
  function SerializeDoc(d: Doc): string { DocString(d) }
  function SerializeSec(s: Sec): string { SecString(s) }

  function DeserializeProj(s: string): (r: Result<Proj, string>)
    ensures r.Err? ==> r.error == INVALID_FORMAT
    ensures r.Ok? <==> ProjFromStr(s).Ok?
    ensures r.Ok? ==> r.value == ProjFromStr(s).value
  {
    match ProjFromStr(s)
    case Ok(p) => Ok(p)
    case Err(_) => Err(INVALID_FORMAT)
  }

  function DeserializeDoc(s: string): (r: Result<Doc, string>)
    ensures r.Err? ==> r.error == INVALID_FORMAT
    ensures r.Ok? <==> DocFromStr(s).Ok?
    ensures r.Ok? ==> r.value == DocFromStr(s).value
  {
    match DocFromStr(s)
    case Ok(d) => Ok(d)
    case Err(_) => Err(INVALID_FORMAT)
  }

  function DeserializeSec(s: string): (r: Result<Sec, string>)
    ensures r.Err? ==> r.error == INVALID_FORMAT
    ensures r.Ok? <==> SecFromStr(s).Ok?
    ensures r.Ok? ==> r.value == SecFromStr(s).value
  {
    match SecFromStr(s)
    case Ok(x) => Ok(x)
    case Err(_) => Err(INVALID_FORMAT)
  }

  /** What serde writes, serde reads back unchanged, at every level. */
  lemma DeserializeInvertsSerialize(p: Proj, d: Doc, s: Sec)
    ensures DeserializeProj(SerializeProj(p)) == Ok(p)
    ensures DeserializeDoc(SerializeDoc(d)) == Ok(d)
    ensures DeserializeSec(SerializeSec(s)) == Ok(s)
  {
    FromStrInvertsString(p, d, s);
  }
}
