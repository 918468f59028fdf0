/**
 * The descriptor builders (`describeSubject`, `describeDocument`, `describeContainer`,
 * `describeSubjectList`). Each builds a new descriptor value and never changes the one it
 * starts from; wrapping a descriptor in a handle with an empty slot is the constructor of
 * the handle class.
 */
module Virtual {
  import opened Wrappers
  import opened Rdf
  import opened AclModel
  import opened Descriptors

  // Subjects

  function IsFoundAt(reference: Ref): (d: SubjectDescriptor)
    ensures IsSubjectFoundAt(d) && d.reference == reference
  {
    SubjectFoundAt(reference)
  }

  function IsFoundOn(subject: VirtualSubject, pred: Ref): (d: SubjectDescriptor)
    ensures IsSubjectFoundOn(d) && d.subject == subject && d.pred == pred
  {
    SubjectFoundOn(subject, pred)
  }

  function IsEnsuredOn(subject: VirtualSubject, pred: Ref): (d: SubjectDescriptor)
    ensures IsSubjectEnsuredOn(d) && d.subject == subject && d.pred == pred
  {
    SubjectEnsuredOn(subject, pred)
  }

  /** A descriptor with a tag and a document but no locator yet; `withRef` or `asRef` completes it. */
  datatype BareSubject = BareFoundIn(document: VirtualDocument) | BareEnsuredIn(document: VirtualDocument)

  function IsFoundIn(document: VirtualDocument): (b: BareSubject)
    ensures b.BareFoundIn? && b.document == document
  {
    BareFoundIn(document)
  }

  function IsEnsuredIn(document: VirtualDocument): (b: BareSubject)
    ensures b.BareEnsuredIn? && b.document == document
  {
    BareEnsuredIn(document)
  }

  /** A descriptor `withRef` can extend: FoundIn or EnsuredIn with a list of references. */
  predicate Extensible(d: SubjectDescriptor) {
    (d.SubjectFoundIn? || d.SubjectEnsuredIn?) && d.locator.references.Some?
  }

  /** Same case and same document. */
  predicate SameKind(a: SubjectDescriptor, b: SubjectDescriptor)
    requires a.SubjectFoundIn? || a.SubjectEnsuredIn?
  {
    (if a.SubjectFoundIn? then b.SubjectFoundIn? else b.SubjectEnsuredIn?) && b.document == a.document
  }

  /** The descriptor completed with the given locator. */
  function Complete(b: BareSubject, l: Locator): (d: SubjectDescriptor)
    ensures d.SubjectFoundIn? <==> b.BareFoundIn?
    ensures (d.SubjectFoundIn? || d.SubjectEnsuredIn?) && d.document == b.document && d.locator == l
  {
    match b
    case BareFoundIn(doc) => SubjectFoundIn(doc, l)
    case BareEnsuredIn(doc) => SubjectEnsuredIn(doc, l)
  }

  /** `withRef` on a bare descriptor: the list of references starts out empty. */
  function WithRefFromBare(b: BareSubject, p: Ref, o: Ref): (d: SubjectDescriptor)
    ensures Extensible(d) && d.locator == Locator(Some([Pair(p, o)]), None)
    ensures d.SubjectFoundIn? <==> b.BareFoundIn?
    ensures d.document == b.document
  {
    Complete(b, Locator(Some([Pair(p, o)]), None))
  }

  /** `withRef`: a new descriptor whose references are the old ones followed by `(p, o)`. */
  function WithRef(d: SubjectDescriptor, p: Ref, o: Ref): (r: SubjectDescriptor)
    requires Extensible(d)
    ensures Extensible(r) && SameKind(d, r)
    ensures r.locator.references.value == d.locator.references.value + [Pair(p, o)]
    ensures r.locator.reference.None?
  {
    var refs := d.locator.references.value + [Pair(p, o)];
    if d.SubjectFoundIn? then SubjectFoundIn(d.document, Locator(Some(refs), None))
    else SubjectEnsuredIn(d.document, Locator(Some(refs), None))
  }

  /** `asRef`: the descriptor locating its Subject by IRI. */
  function AsRef(b: BareSubject, reference: Ref): (d: SubjectDescriptor)
    ensures d.SubjectFoundIn? <==> b.BareFoundIn?
    ensures (d.SubjectFoundIn? || d.SubjectEnsuredIn?) && d.document == b.document
    ensures IsAsRefLocator(d.locator) && !IsWithRefLocator(d.locator) && d.locator.reference.value == reference
  {
    Complete(b, Locator(None, Some(reference)))
  }

  /** `isFoundIn(doc).withRef(p1, o1).withRef(p2, o2)…` for the pairs `ps` (at least one). */
  function ChainRefs(b: BareSubject, ps: seq<Pair>): (d: SubjectDescriptor)
    requires ps != []
    ensures Extensible(d)
  {
    if |ps| == 1 then WithRefFromBare(b, ps[0].pred, ps[0].obj)
    else WithRef(ChainRefs(b, ps[..|ps| - 1]), ps[|ps| - 1].pred, ps[|ps| - 1].obj)
  }

  /** Chained `withRef` calls keep the tag and the document and keep the pairs in call order. */
  lemma {:induction false} ChainRefsKeepsOrder(b: BareSubject, ps: seq<Pair>)
    requires ps != []
    ensures ChainRefs(b, ps) == Complete(b, Locator(Some(ps), None))
  {
    if |ps| == 1 {
      assert [Pair(ps[0].pred, ps[0].obj)] == ps;
    } else {
      var init, last := ps[..|ps| - 1], ps[|ps| - 1];
      ChainRefsKeepsOrder(b, init);
      assert init + [Pair(last.pred, last.obj)] == ps;
    }
  }

  // Subject lists

  function ListIsFoundIn(document: VirtualDocument): (d: SubjectListDescriptor)
    ensures IsListFoundIn(d) && d.document == document && d.references == []
  {
    ListFoundIn(document, [])
  }

  /** `withRef` of a list descriptor (`generateRefAdder`): appends exactly one pair. */
  function ListWithRef(d: SubjectListDescriptor, p: Ref, o: Ref): (r: SubjectListDescriptor)
    requires d.ListFoundIn?
    ensures r.ListFoundIn? && r.document == d.document
    ensures r.references == d.references + [Pair(p, o)]
  {
    d.(references := d.references + [Pair(p, o)])
  }

  function ListIsFoundOn(subject: VirtualSubject, pred: Ref): (d: SubjectListDescriptor)
    ensures SubjectListTag(d) == "IsFoundOn" && !IsListFoundIn(d)
    ensures d.ListFoundOn? && d.subject == subject && d.pred == pred
  {
    ListFoundOn(subject, pred)
  }

  /** `isFoundIn(doc)` followed by one `withRef` per pair of `ps`. */
  function ListChain(document: VirtualDocument, ps: seq<Pair>): (d: SubjectListDescriptor)
    ensures d.ListFoundIn?
  {
    if ps == [] then ListIsFoundIn(document)
    else ListWithRef(ListChain(document, ps[..|ps| - 1]), ps[|ps| - 1].pred, ps[|ps| - 1].obj)
  }

  lemma {:induction false} ListChainKeepsOrder(document: VirtualDocument, ps: seq<Pair>)
    ensures ListChain(document, ps) == ListFoundIn(document, ps)
  {
    if ps != [] {
      var init := ps[..|ps| - 1];
      ListChainKeepsOrder(document, init);
      assert ps == init + [ps[|ps| - 1]];
    }
  }

  // Documents

  function DocumentByRef(reference: Ref): (d: DocumentDescriptor)
    ensures IsDocByRef(d) && d.reference == reference
  {
    DocByRef(reference)
  }

  function DocumentIsAclFor(document: VirtualDocument): (d: DocumentDescriptor)
    ensures IsDocIsAclFor(d) && d.document == document
  {
    DocIsAclFor(document)
  }

  function DocumentIsFoundOn(subject: VirtualSubject, pred: Ref): (d: DocumentDescriptor)
    ensures IsDocIsFoundOn(d) && d.subject == subject && d.pred == pred
  {
    DocIsFoundOn(subject, pred)
  }

  /** `isEnsuredOn` of the document builder; it sets no `acl` property. */
  function DocumentIsEnsuredOn(subject: VirtualSubject, pred: Ref, fallback: VirtualContainer): (d: DocumentDescriptor)
    ensures IsDocIsEnsuredOn(d) && d.subject == subject && d.pred == pred && d.fallbackContainer == fallback
    ensures d.acl.None?
  {
    DocIsEnsuredOn(subject, pred, fallback, None)
  }

  // Containers

  /**
   * `byRef` of the container builder. It writes the tag "ByRef", which is not among the
   * tags the Container resolver dispatches on.
   */
  function ContainerByRef(reference: Ref): (d: ContainerDescriptor)
    ensures ContainerTag(d) == "ByRef" && d.ContainerOther? && d.extra == map["reference" := reference]
    ensures !IsContainerFoundAt(d) && !IsContainerFoundOn(d) && !IsContainerContainedIn(d)
  {
    ContainerOther("ByRef", map["reference" := reference])
  }

  function ContainerIsFoundOn(subject: VirtualSubject, pred: Ref): (d: ContainerDescriptor)
    ensures IsContainerFoundOn(d) && d.subject == subject && d.pred == pred
  {
    ContainerFoundOn(subject, pred)
  }
}
