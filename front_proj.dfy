/** The project page of front/src/components/proj.rs. Its state and its
    document entries have the shapes of front/src/data.rs's `Proj` and
    `ProjDoc`, with the same `with_id` defaults, `doc_next`, `Add` reducer and
    order-only comparison, so those definitions are used here; what is the
    page's own is the ordered listing of its documents. */
module FrontProj {
  import opened FrontData

  /** The `BTreeSet` listing of the project's documents: every document of
      the project, once, in ascending order. */
  method Listing(st: Proj) returns (docs: seq<ProjDoc>)
    ensures Ascending(docs, (d: ProjDoc) => d.order as nat)
    ensures multiset(docs) == multiset(st.children.Values)
    ensures forall id | id in st.children :: st.children[id] in docs
  {
    docs := OrderedListing(st.children.Values, (d: ProjDoc) => d.order as nat);
    forall id | id in st.children
      ensures st.children[id] in docs
    {
      assert st.children[id] in st.children.Values;
      assert st.children[id] in multiset(docs);
    }
  }
}
