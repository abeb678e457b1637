/** The persisted records of schling-front/src/data.rs. The `data_for_head!`
    macro stamps out, for sections, documents and projects alike, a head
    (id, order, title) and a body (head and content); each id type keys its
    body in the store under the body's type name and the id's hex string. */
module SchlingData {
  import opened Chars
  import opened Outcomes
  import HexId
  import Markups
  import Storage

  /** A head: the id, the position among its siblings, the title. */
  datatype Head<I> = Head(id: I, order: u32, title: string)

  /** A body: a head and the content it heads. */
  datatype Body<I, C> = Body(head: Head<I>, content: C)

  type SecHead = Head<HexId.Sec>
  type Sec = Body<HexId.Sec, Markups.Markup>
  type DocHead = Head<HexId.Doc>
  type Doc = Body<HexId.Doc, seq<SecHead>>
  type ProjHead = Head<HexId.Proj>
  type Proj = Body<HexId.Proj, seq<DocHead>>

  /** What the store holds under a key: a body it can decode as one of the
      three types, or text that decodes as none of them. */
  datatype Value = SecValue(sec: Sec) | DocValue(doc: Doc) | ProjValue(proj: Proj) | Undecodable(json: string)

  // ---------------------------------------------------------------------------
  // Head and body builders.

  /** `head.body(content)`: the head and the content, unchanged. */
  function BodyOf<I, C>(h: Head<I>, content: C): (b: Body<I, C>)
    ensures b.head == h && b.content == content
  {
    Body(h, content)
  }

  /** A head's `own_with_title`: the new title, the same id and order. */
  function HeadWithTitle<I>(h: Head<I>, title: string): (r: Head<I>)
    ensures r.id == h.id && r.order == h.order && r.title == title
  {
    Head(h.id, h.order, title)
  }

  /** A body's `own_with_title`: only the head's title changes. */
  function WithTitle<I, C>(b: Body<I, C>, title: string): (r: Body<I, C>)
    ensures r.head.id == b.head.id && r.head.order == b.head.order && r.head.title == title
    ensures r.content == b.content
  {
    Body(HeadWithTitle(b.head, title), b.content)
  }

  /** `own_with_content`: only the content changes. */
  function WithContent<I, C>(b: Body<I, C>, content: C): (r: Body<I, C>)
    ensures r.head == b.head && r.content == content
  {
    Body(b.head, content)
  }

  /** `ord_by!(head, order)`: heads compare by order alone. */
  function HeadPartialCmp<I>(a: Head<I>, b: Head<I>): (o: Option<Ordering>)
    ensures o.Some?
    ensures o.value == Equal <==> a.order == b.order
    ensures o.value == Less <==> a.order < b.order
  {
    Some(CmpNat(a.order, b.order))
  }

  /** `ord_by!(body, head)`: bodies compare by their heads, so by order. */
  function BodyPartialCmp<I, C>(a: Body<I, C>, b: Body<I, C>): (o: Option<Ordering>)
    ensures o == HeadPartialCmp(a.head, b.head)
  {
    HeadPartialCmp(a.head, b.head)
  }

  /** Ordering and equality disagree: two different sections in the same
      place compare equal. */
  lemma SameOrderNotEqual(a: SecHead)
    ensures var b := HeadWithTitle(a, a.title + "'");
            HeadPartialCmp(a, b) == Some(Equal) && a != b
  {
    var b := HeadWithTitle(a, a.title + "'");
    assert |b.title| != |a.title|;
  }

  // ---------------------------------------------------------------------------
  // Storage keys.

  /** `std::any::type_name` of the three body types. */
  const SEC_TYPE := "schling_front::data::Sec"
  const DOC_TYPE := "schling_front::data::Doc"
  const PROJ_TYPE := "schling_front::data::Proj"

  /** `Head::key` for a section id: the type name, `-`, the id's hex string,
      which reads back as the id. */
  function SecKey(id: HexId.Sec): (k: string)
    ensures SEC_TYPE + "-" <= k && HexId.SecFromStr(k[|SEC_TYPE| + 1..]) == Ok(id)
  {
    HexId.FromStrInvertsString(id.doc.proj, id.doc, id);
    var k := SEC_TYPE + "-" + HexId.SecString(id);
    assert k[|SEC_TYPE| + 1..] == HexId.SecString(id);
    k
  }

  function DocKey(id: HexId.Doc): (k: string)
    ensures DOC_TYPE + "-" <= k && HexId.DocFromStr(k[|DOC_TYPE| + 1..]) == Ok(id)
  {
    HexId.FromStrInvertsString(id.proj, id, HexId.Sec(0, id));
    var k := DOC_TYPE + "-" + HexId.DocString(id);
    assert k[|DOC_TYPE| + 1..] == HexId.DocString(id);
    k
  }

  function ProjKey(id: HexId.Proj): (k: string)
    ensures PROJ_TYPE + "-" <= k && HexId.ProjFromStr(k[|PROJ_TYPE| + 1..]) == Ok(id)
  {
    HexId.FromStrInvertsString(id, HexId.Doc(id, 0), HexId.Sec(0, HexId.Doc(id, 0)));
    var k := PROJ_TYPE + "-" + HexId.ProjString(id);
    assert k[|PROJ_TYPE| + 1..] == HexId.ProjString(id);
    k
  }

  /** No two records share a key: each kind's keys tell its ids apart, and
      keys of different kinds differ in the type name. */
  lemma KeysDistinct(s: HexId.Sec, s': HexId.Sec, d: HexId.Doc, d': HexId.Doc, p: HexId.Proj, p': HexId.Proj)
    ensures SecKey(s) == SecKey(s') <==> s == s'
    ensures DocKey(d) == DocKey(d') <==> d == d'
    ensures ProjKey(p) == ProjKey(p') <==> p == p'
    ensures SecKey(s) != DocKey(d) && SecKey(s) != ProjKey(p) && DocKey(d) != ProjKey(p)
  {
    SecKeysApart(s, s');
    DocKeysApart(d, d');
    ProjKeysApart(p, p');
    TypeNamesDiffer(SecKey(s), DocKey(d), ProjKey(p));
  }

  lemma SecKeysApart(s: HexId.Sec, s': HexId.Sec)
    ensures SecKey(s) == SecKey(s') <==> s == s'
  {
    if SecKey(s) == SecKey(s') {
      assert HexId.SecFromStr(SecKey(s)[|SEC_TYPE| + 1..]) == HexId.SecFromStr(SecKey(s')[|SEC_TYPE| + 1..]);
    }
  }

  lemma DocKeysApart(d: HexId.Doc, d': HexId.Doc)
    ensures DocKey(d) == DocKey(d') <==> d == d'
  {
    if DocKey(d) == DocKey(d') {
      assert HexId.DocFromStr(DocKey(d)[|DOC_TYPE| + 1..]) == HexId.DocFromStr(DocKey(d')[|DOC_TYPE| + 1..]);
    }
  }

  lemma ProjKeysApart(p: HexId.Proj, p': HexId.Proj)
    ensures ProjKey(p) == ProjKey(p') <==> p == p'
  {
    if ProjKey(p) == ProjKey(p') {
      assert HexId.ProjFromStr(ProjKey(p)[|PROJ_TYPE| + 1..]) == HexId.ProjFromStr(ProjKey(p')[|PROJ_TYPE| + 1..]);
    }
  }

  lemma TypeNamesDiffer(sk: string, dk: string, pk: string)
    requires SEC_TYPE + "-" <= sk && DOC_TYPE + "-" <= dk && PROJ_TYPE + "-" <= pk
    ensures sk != dk && sk != pk && dk != pk
  {
    assert sk[21] == SEC_TYPE[21] == 'S';
    assert dk[21] == DOC_TYPE[21] == 'D';
    assert pk[21] == PROJ_TYPE[21] == 'P';
  }

  // ---------------------------------------------------------------------------
  // `Head::load` and `Head::update`.

  /** `load` for a section id: the body stored under its key, when there is
      one that decodes as a section. */
  function LoadSec(store: Storage.Store<Value>, id: HexId.Sec): (r: Option<Sec>)
    reads store
    ensures r.Some? <==> SecKey(id) in store.entries && store.entries[SecKey(id)].SecValue?
    ensures r.Some? ==> r.value == store.entries[SecKey(id)].sec
  {
    match store.Get(SecKey(id))
    case Some(SecValue(sec)) => Some(sec)
    case _ => None
  }

  function LoadDoc(store: Storage.Store<Value>, id: HexId.Doc): (r: Option<Doc>)
    reads store
    ensures r.Some? <==> DocKey(id) in store.entries && store.entries[DocKey(id)].DocValue?
    ensures r.Some? ==> r.value == store.entries[DocKey(id)].doc
  {
    match store.Get(DocKey(id))
    case Some(DocValue(doc)) => Some(doc)
    case _ => None
  }

  function LoadProj(store: Storage.Store<Value>, id: HexId.Proj): (r: Option<Proj>)
    reads store
    ensures r.Some? <==> ProjKey(id) in store.entries && store.entries[ProjKey(id)].ProjValue?
    ensures r.Some? ==> r.value == store.entries[ProjKey(id)].proj
  {
    match store.Get(ProjKey(id))
    case Some(ProjValue(proj)) => Some(proj)
    case _ => None
  }

  /** `update` for a section id: the body is stored under the id's key and
      handed back unchanged; loading it again gives it back. */
  method UpdateSec(store: Storage.Store<Value>, id: HexId.Sec, body: Sec) returns (r: Sec)
    modifies store
    ensures r == body
    ensures store.entries == old(store.entries)[SecKey(id) := SecValue(body)]
    ensures LoadSec(store, id) == Some(body)
  {
    store.Set(SecKey(id), SecValue(body));
    r := body;
  }

  method UpdateDoc(store: Storage.Store<Value>, id: HexId.Doc, body: Doc) returns (r: Doc)
    modifies store
    ensures r == body
    ensures store.entries == old(store.entries)[DocKey(id) := DocValue(body)]
    ensures LoadDoc(store, id) == Some(body)
  {
    store.Set(DocKey(id), DocValue(body));
    r := body;
  }

  method UpdateProj(store: Storage.Store<Value>, id: HexId.Proj, body: Proj) returns (r: Proj)
    modifies store
    ensures r == body
    ensures store.entries == old(store.entries)[ProjKey(id) := ProjValue(body)]
    ensures LoadProj(store, id) == Some(body)
  {
    store.Set(ProjKey(id), ProjValue(body));
    r := body;
  }

  /** Writing one record leaves the others loadable as they were. */
  lemma UpdateKeepsOthers(before: map<string, Value>, after: map<string, Value>, id: HexId.Sec, body: Sec, other: HexId.Sec, doc: HexId.Doc)
    requires after == before[SecKey(id) := SecValue(body)]
    requires other != id
    ensures SecKey(other) in after <==> SecKey(other) in before
    ensures SecKey(other) in after ==> after[SecKey(other)] == before[SecKey(other)]
    ensures DocKey(doc) in after <==> DocKey(doc) in before
  {
    SecKeysApart(id, other);
    TypeNamesDiffer(SecKey(id), DocKey(doc), ProjKey(doc.proj));
  }
}
