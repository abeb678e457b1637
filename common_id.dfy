/** The identifier codec of common/src/id.rs. The types and the hex parsers
    are the ones of `HexId` (the code is the same), but `Display` here writes
    the tagged decimal form, `String::from` of a document or section embeds its
    parent's `Display`, and serde writes `Display` while reading hex. */
module CommonId {
  import opened Chars
  import opened Outcomes
  import HexId
  import QueryId

  type Proj = HexId.Proj
  type Doc = HexId.Doc
  type Sec = HexId.Sec

  // ---------------------------------------------------------------------------
  // Display: tagged decimal.

  function ProjDisplay(p: Proj): string { "proj=" + Decimal(p.value) }
  function DocDisplay(d: Doc): string { ProjDisplay(d.proj) + "&doc=" + Decimal(d.value) }
  function SecDisplay(s: Sec): string { DocDisplay(s.doc) + "&card=" + Decimal(s.value) }

  /** The tagged form is the query grammar's: the query parser reads every id
      back, the section's value under the `&card=` tag. */
  lemma DisplayIsQueryForm(p: Proj, d: Doc, s: Sec)
    ensures QueryId.ParseProjId(ProjDisplay(p)) == Done([], QueryId.Proj(p.value))
    ensures QueryId.ParseDocId(DocDisplay(d)) ==
              Done([], QueryId.Doc(d.value, QueryId.Proj(d.proj.value)))
    ensures QueryId.ParseCardId(SecDisplay(s)) ==
              Done([], QueryId.Card(s.value, QueryId.Doc(s.doc.value, QueryId.Proj(s.doc.proj.value))))
  {
    var qp := QueryId.Proj(p.value);
    var qd := QueryId.Doc(d.value, QueryId.Proj(d.proj.value));
    var qc := QueryId.Card(s.value, QueryId.Doc(s.doc.value, QueryId.Proj(s.doc.proj.value)));
    assert QueryId.ProjDisplay(qp) == ProjDisplay(p);
    assert QueryId.DocDisplay(qd) == DocDisplay(d);
    assert QueryId.CardDisplay(qc) == SecDisplay(s);
    QueryId.ParseInvertsDisplay(qp, qd, qc);
  }

  // ---------------------------------------------------------------------------
  // `From<_> for String`, as written: `{}` on the parent is its `Display`.

  /** A project's string is its eight hex digits, which `from_str` inverts. */
  function ProjString(p: Proj): (s: string)
    ensures s == HexId.ProjString(p)
    ensures HexId.ProjFromStr(s) == Ok(p)
  {
    HexId.FromStrInvertsString(p, HexId.Doc(p, 0), HexId.Sec(0, HexId.Doc(p, 0)));
    Hex8(p.value)
  }

  function DocString(d: Doc): string { ProjDisplay(d.proj) + Hex8(d.value) }
  function SecString(s: Sec): string { DocDisplay(s.doc) + Hex8(s.value) }

  /** The document and section strings start with the letter `p` of the
      parent's tag, which no hex field accepts: `from_str` rejects every one. */
  lemma StringDoesNotRoundTrip(d: Doc, s: Sec)
    ensures HexId.DocFromStr(DocString(d)).Err?
    ensures HexId.SecFromStr(SecString(s)).Err?
  {
    var t := DocString(d);
    assert t[0] == 'p' && !IsHexDigit(t[0]);
    HexId.DocFromStrAccepts(t);
    if |t| >= 16 {
      assert t[..16][0] == t[0];
    }
    var u := SecString(s);
    assert u[0] == 'p';
    HexId.SecFromStrAccepts(u);
    if |u| >= 24 {
      assert u[..24][0] == u[0];
    }
  }

  // ---------------------------------------------------------------------------
  // serde: `serialize` writes `to_string()` (the decimal `Display`); the
  // visitors are the hex ones of `HexId`.

  function SerializeProj(p: Proj): string { ProjDisplay(p) }
  function SerializeDoc(d: Doc): string { DocDisplay(d) }
  function SerializeSec(s: Sec): string { SecDisplay(s) }

  function DeserializeProj(s: string): Result<Proj, string> { HexId.DeserializeProj(s) }
  function DeserializeDoc(s: string): Result<Doc, string> { HexId.DeserializeDoc(s) }
  function DeserializeSec(s: string): Result<Sec, string> { HexId.DeserializeSec(s) }

  /** Every serialised id starts `proj=`, so deserialising it always fails with
      "invalid format". */
  lemma SerdeNeverRoundTrips(p: Proj, d: Doc, s: Sec)
    ensures DeserializeProj(SerializeProj(p)) == Err(HexId.INVALID_FORMAT)
    ensures DeserializeDoc(SerializeDoc(d)) == Err(HexId.INVALID_FORMAT)
    ensures DeserializeSec(SerializeSec(s)) == Err(HexId.INVALID_FORMAT)
  {
    var a := SerializeProj(p);
    assert a[0] == 'p';
    assert HexId.HexRun(a, 8) == 0;
    var b := SerializeDoc(d);
    assert b[0] == 'p';
    HexId.DocFromStrAccepts(b);
    if |b| >= 16 {
      assert b[..16][0] == b[0];
    }
    var c := SerializeSec(s);
    assert c[0] == 'p';
    HexId.SecFromStrAccepts(c);
    if |c| >= 24 {
      assert c[..24][0] == c[0];
    }
  }
}
