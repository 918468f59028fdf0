/**
 * Descriptors say how to find or create a Subject, Document, Container or list of Subjects;
 * a handle ("virtual" resource) pairs one descriptor with the slot in which the resolver
 * keeps its settled result. Descriptors are values; handles are objects, so two handles
 * built from equal descriptors still have separate slots.
 *
 * Each union holds the tags its resolver dispatches on, plus one case for every other tag.
 */
module Descriptors {
  import opened Wrappers
  import opened Rdf
  import opened AclModel

  /** The tags the Subject resolver dispatches on. */
  const SubjectTags: set<string> := {"IsFoundAt", "IsFoundOn", "IsEnsuredOn", "IsFoundIn", "IsEnsuredIn"}
  /** The tags the Document resolver dispatches on. */
  const DocumentTags: set<string> := {"ByRef", "IsAclFor", "IsFoundOn", "IsEnsuredOn"}
  /** The tags the Container resolver dispatches on. */
  const ContainerTags: set<string> := {"IsFoundAt", "IsFoundOn", "IsContainedIn"}
  /** The tags a Subject List descriptor can be built with. */
  const SubjectListTags: set<string> := {"IsFoundIn", "IsFoundOn"}

  type OtherSubjectTag = t: string | t !in SubjectTags witness ""
  type OtherDocumentTag = t: string | t !in DocumentTags witness ""
  type OtherContainerTag = t: string | t !in ContainerTags witness ""
  type OtherSubjectListTag = t: string | t !in SubjectListTags witness ""

  /**
   * How a Subject is picked out of its Document: by (predicate, object) pairs it must all
   * carry (`references`), or by its own IRI (`reference`). Either property may be missing.
   */
  datatype Locator = Locator(references: Option<seq<Pair>>, reference: Option<Ref>)

  /** `internal_isWithRefLocator`: `references` is an array. */
  predicate IsWithRefLocator(l: Locator) {
    l.references.Some?
  }

  /** `internal_isAsRefLocator`: `reference` is a string. */
  predicate IsAsRefLocator(l: Locator) {
    l.reference.Some?
  }

  datatype SubjectDescriptor =
    | SubjectFoundAt(reference: Ref)
    | SubjectFoundOn(subject: VirtualSubject, pred: Ref)
    | SubjectEnsuredOn(subject: VirtualSubject, pred: Ref)
    | SubjectFoundIn(document: VirtualDocument, locator: Locator)
    | SubjectEnsuredIn(document: VirtualDocument, locator: Locator)
    | SubjectOther(tag: OtherSubjectTag, extra: map<string, string>)

  datatype DocumentDescriptor =
    | DocByRef(reference: Ref)
    | DocIsAclFor(document: VirtualDocument)
    | DocIsFoundOn(subject: VirtualSubject, pred: Ref)
    | DocIsEnsuredOn(subject: VirtualSubject, pred: Ref, fallbackContainer: VirtualContainer, acl: Option<AclSettings>)
    | DocOther(tag: OtherDocumentTag, extra: map<string, string>)

  datatype ContainerDescriptor =
    | ContainerFoundAt(reference: Ref)
    | ContainerFoundOn(subject: VirtualSubject, pred: Ref)
    | ContainerContainedIn(container: VirtualContainer, name: string, acl: Option<AclSettings>)
    | ContainerOther(tag: OtherContainerTag, extra: map<string, string>)

  datatype SubjectListDescriptor =
    | ListFoundIn(document: VirtualDocument, references: seq<Pair>)
    | ListFoundOn(subject: VirtualSubject, pred: Ref)
    | ListOther(tag: OtherSubjectListTag, extra: map<string, string>)

  /** The `type` property of a Subject descriptor. */
  function SubjectTag(d: SubjectDescriptor): (t: string)
    ensures d.SubjectOther? <==> t !in SubjectTags
  {
    match d
    case SubjectFoundAt(_) => "IsFoundAt"
    case SubjectFoundOn(_, _) => "IsFoundOn"
    case SubjectEnsuredOn(_, _) => "IsEnsuredOn"
    case SubjectFoundIn(_, _) => "IsFoundIn"
    case SubjectEnsuredIn(_, _) => "IsEnsuredIn"
    case SubjectOther(t, _) => t
  }

  /** The `type` property of a Document descriptor. */
  function DocumentTag(d: DocumentDescriptor): (t: string)
    ensures d.DocOther? <==> t !in DocumentTags
  {
    match d
    case DocByRef(_) => "ByRef"
    case DocIsAclFor(_) => "IsAclFor"
    case DocIsFoundOn(_, _) => "IsFoundOn"
    case DocIsEnsuredOn(_, _, _, _) => "IsEnsuredOn"
    case DocOther(t, _) => t
  }

  /** The `type` property of a Container descriptor. */
  function ContainerTag(d: ContainerDescriptor): (t: string)
    ensures d.ContainerOther? <==> t !in ContainerTags
  {
    match d
    case ContainerFoundAt(_) => "IsFoundAt"
    case ContainerFoundOn(_, _) => "IsFoundOn"
    case ContainerContainedIn(_, _, _) => "IsContainedIn"
    case ContainerOther(t, _) => t
  }

  /** The `type` property of a Subject List descriptor. */
  function SubjectListTag(d: SubjectListDescriptor): (t: string)
    ensures d.ListOther? <==> t !in SubjectListTags
  {
    match d
    case ListFoundIn(_, _) => "IsFoundIn"
    case ListFoundOn(_, _) => "IsFoundOn"
    case ListOther(t, _) => t
  }

  // Tag predicates: each compares the `type` property with one name, and holds for exactly one case.

  predicate IsSubjectFoundAt(d: SubjectDescriptor) ensures IsSubjectFoundAt(d) <==> d.SubjectFoundAt? { SubjectTag(d) == "IsFoundAt" }
  predicate IsSubjectFoundOn(d: SubjectDescriptor) ensures IsSubjectFoundOn(d) <==> d.SubjectFoundOn? { SubjectTag(d) == "IsFoundOn" }
  predicate IsSubjectEnsuredOn(d: SubjectDescriptor) ensures IsSubjectEnsuredOn(d) <==> d.SubjectEnsuredOn? { SubjectTag(d) == "IsEnsuredOn" }
  predicate IsSubjectFoundIn(d: SubjectDescriptor) ensures IsSubjectFoundIn(d) <==> d.SubjectFoundIn? { SubjectTag(d) == "IsFoundIn" }
  predicate IsSubjectEnsuredIn(d: SubjectDescriptor) ensures IsSubjectEnsuredIn(d) <==> d.SubjectEnsuredIn? { SubjectTag(d) == "IsEnsuredIn" }

  /** The Subject descriptor module still declares a `ByRef` case, which no resolver branch handles. */
  predicate IsSubjectByRef(d: SubjectDescriptor)
    ensures IsSubjectByRef(d) <==> d.SubjectOther? && d.tag == "ByRef"
  {
    SubjectTag(d) == "ByRef"
  }

  predicate IsDocByRef(d: DocumentDescriptor) ensures IsDocByRef(d) <==> d.DocByRef? { DocumentTag(d) == "ByRef" }
  predicate IsDocIsAclFor(d: DocumentDescriptor) ensures IsDocIsAclFor(d) <==> d.DocIsAclFor? { DocumentTag(d) == "IsAclFor" }
  predicate IsDocIsFoundOn(d: DocumentDescriptor) ensures IsDocIsFoundOn(d) <==> d.DocIsFoundOn? { DocumentTag(d) == "IsFoundOn" }
  predicate IsDocIsEnsuredOn(d: DocumentDescriptor) ensures IsDocIsEnsuredOn(d) <==> d.DocIsEnsuredOn? { DocumentTag(d) == "IsEnsuredOn" }

  predicate IsContainerFoundAt(d: ContainerDescriptor) ensures IsContainerFoundAt(d) <==> d.ContainerFoundAt? { ContainerTag(d) == "IsFoundAt" }
  predicate IsContainerFoundOn(d: ContainerDescriptor) ensures IsContainerFoundOn(d) <==> d.ContainerFoundOn? { ContainerTag(d) == "IsFoundOn" }
  predicate IsContainerContainedIn(d: ContainerDescriptor) ensures IsContainerContainedIn(d) <==> d.ContainerContainedIn? { ContainerTag(d) == "IsContainedIn" }

  predicate IsListFoundIn(d: SubjectListDescriptor) ensures IsListFoundIn(d) <==> d.ListFoundIn? { SubjectListTag(d) == "IsFoundIn" }

  /** The tag predicates of a resolver never hold together: at most one branch can be taken. */
  lemma DocumentTagsExclusive(d: DocumentDescriptor)
    ensures (if IsDocByRef(d) then 1 else 0) + (if IsDocIsAclFor(d) then 1 else 0)
          + (if IsDocIsFoundOn(d) then 1 else 0) + (if IsDocIsEnsuredOn(d) then 1 else 0)
          == (if d.DocOther? then 0 else 1)
  {
  }

  lemma ContainerTagsExclusive(d: ContainerDescriptor)
    ensures (if IsContainerFoundAt(d) then 1 else 0) + (if IsContainerFoundOn(d) then 1 else 0)
          + (if IsContainerContainedIn(d) then 1 else 0)
          == (if d.ContainerOther? then 0 else 1)
  {
  }

  lemma SubjectTagsExclusive(d: SubjectDescriptor)
    ensures (if IsSubjectFoundAt(d) then 1 else 0) + (if IsSubjectFoundOn(d) then 1 else 0)
          + (if IsSubjectEnsuredOn(d) then 1 else 0) + (if IsSubjectFoundIn(d) then 1 else 0)
          + (if IsSubjectEnsuredIn(d) then 1 else 0)
          == (if d.SubjectOther? then 0 else 1)
  {
  }

  /**
   * A handle on a Subject. `promise` is the memo slot; `depth` and the three sets name the
   * handles nested inside the descriptor, which a resolution may settle as well.
   */
  class VirtualSubject {
    const descriptor: SubjectDescriptor
    var promise: Option<Result<Option<Subject>>>
    ghost const depth: nat
    ghost const subjects: set<VirtualSubject>
    ghost const documents: set<VirtualDocument>
    ghost const containers: set<VirtualContainer>

    /** The nested handles are exactly those below the descriptor's children, all of smaller depth. */
    ghost predicate Ok()
      decreases depth, 1
    {
      && (forall s | s in subjects :: s.depth < depth)
      && (forall d | d in documents :: d.depth < depth)
      && (forall c | c in containers :: c.depth < depth)
      && match descriptor
         case SubjectFoundOn(sub, _) =>
           sub.depth < depth && sub.Ok()
           && subjects == {sub} + sub.subjects && documents == sub.documents && containers == sub.containers
         case SubjectEnsuredOn(sub, _) =>
           sub.depth < depth && sub.Ok()
           && subjects == {sub} + sub.subjects && documents == sub.documents && containers == sub.containers
         case SubjectFoundIn(doc, _) =>
           doc.depth < depth && doc.Ok()
           && subjects == doc.subjects && documents == {doc} + doc.documents && containers == doc.containers
         case SubjectEnsuredIn(doc, _) =>
           doc.depth < depth && doc.Ok()
           && subjects == doc.subjects && documents == {doc} + doc.documents && containers == doc.containers
         case _ => subjects == {} && documents == {} && containers == {}
    }

    /** Wraps a descriptor in a fresh handle with an empty slot. */
    constructor (descriptor: SubjectDescriptor)
      requires SubjectChildrenOk(descriptor)
      ensures this.descriptor == descriptor && promise == None && Ok()
    {
      this.descriptor := descriptor;
      promise := None;
      match descriptor
      case SubjectFoundOn(sub, _) =>
        depth, subjects, documents, containers := sub.depth + 1, {sub} + sub.subjects, sub.documents, sub.containers;
      case SubjectEnsuredOn(sub, _) =>
        depth, subjects, documents, containers := sub.depth + 1, {sub} + sub.subjects, sub.documents, sub.containers;
      case SubjectFoundIn(doc, _) =>
        depth, subjects, documents, containers := doc.depth + 1, doc.subjects, {doc} + doc.documents, doc.containers;
      case SubjectEnsuredIn(doc, _) =>
        depth, subjects, documents, containers := doc.depth + 1, doc.subjects, {doc} + doc.documents, doc.containers;
      case _ =>
        depth, subjects, documents, containers := 0, {}, {}, {};
    }
  }

  class VirtualDocument {
    const descriptor: DocumentDescriptor
    var promise: Option<Result<Option<Doc>>>
    ghost const depth: nat
    ghost const subjects: set<VirtualSubject>
    ghost const documents: set<VirtualDocument>
    ghost const containers: set<VirtualContainer>

    ghost predicate Ok()
      decreases depth, 1
    {
      && (forall s | s in subjects :: s.depth < depth)
      && (forall d | d in documents :: d.depth < depth)
      && (forall c | c in containers :: c.depth < depth)
      && match descriptor
         case DocIsAclFor(doc) =>
           doc.depth < depth && doc.Ok()
           && subjects == doc.subjects && documents == {doc} + doc.documents && containers == doc.containers
         case DocIsFoundOn(sub, _) =>
           sub.depth < depth && sub.Ok()
           && subjects == {sub} + sub.subjects && documents == sub.documents && containers == sub.containers
         case DocIsEnsuredOn(sub, _, con, _) =>
           sub.depth < depth && sub.Ok() && con.depth < depth && con.Ok()
           && subjects == {sub} + sub.subjects + con.subjects
           && documents == sub.documents + con.documents
           && containers == {con} + sub.containers + con.containers
         case _ => subjects == {} && documents == {} && containers == {}
    }

    constructor (descriptor: DocumentDescriptor)
      requires DocumentChildrenOk(descriptor)
      ensures this.descriptor == descriptor && promise == None && Ok()
    {
      this.descriptor := descriptor;
      promise := None;
      match descriptor
      case DocIsAclFor(doc) =>
        depth, subjects, documents, containers := doc.depth + 1, doc.subjects, {doc} + doc.documents, doc.containers;
      case DocIsFoundOn(sub, _) =>
        depth, subjects, documents, containers := sub.depth + 1, {sub} + sub.subjects, sub.documents, sub.containers;
      case DocIsEnsuredOn(sub, _, con, _) =>
        depth := if sub.depth < con.depth then con.depth + 1 else sub.depth + 1;
        subjects, documents, containers :=
          {sub} + sub.subjects + con.subjects, sub.documents + con.documents, {con} + sub.containers + con.containers;
      case _ =>
        depth, subjects, documents, containers := 0, {}, {}, {};
    }
  }

  class VirtualContainer {
    const descriptor: ContainerDescriptor
    var promise: Option<Result<Option<Ref>>>
    ghost const depth: nat
    ghost const subjects: set<VirtualSubject>
    ghost const documents: set<VirtualDocument>
    ghost const containers: set<VirtualContainer>

    ghost predicate Ok()
      decreases depth, 1
    {
      && (forall s | s in subjects :: s.depth < depth)
      && (forall d | d in documents :: d.depth < depth)
      && (forall c | c in containers :: c.depth < depth)
      && match descriptor
         case ContainerFoundOn(sub, _) =>
           sub.depth < depth && sub.Ok()
           && subjects == {sub} + sub.subjects && documents == sub.documents && containers == sub.containers
         case ContainerContainedIn(con, _, _) =>
           con.depth < depth && con.Ok()
           && subjects == con.subjects && documents == con.documents && containers == {con} + con.containers
         case _ => subjects == {} && documents == {} && containers == {}
    }

    constructor (descriptor: ContainerDescriptor)
      requires ContainerChildrenOk(descriptor)
      ensures this.descriptor == descriptor && promise == None && Ok()
    {
      this.descriptor := descriptor;
      promise := None;
      match descriptor
      case ContainerFoundOn(sub, _) =>
        depth, subjects, documents, containers := sub.depth + 1, {sub} + sub.subjects, sub.documents, sub.containers;
      case ContainerContainedIn(con, _, _) =>
        depth, subjects, documents, containers := con.depth + 1, con.subjects, con.documents, {con} + con.containers;
      case _ =>
        depth, subjects, documents, containers := 0, {}, {}, {};
    }
  }

  /** A handle on a list of Subjects; no other handle nests one. */
  class VirtualSubjectList {
    const descriptor: SubjectListDescriptor
    var promise: Option<Result<Option<seq<Subject>>>>
    ghost const subjects: set<VirtualSubject>
    ghost const documents: set<VirtualDocument>
    ghost const containers: set<VirtualContainer>

    ghost predicate Ok() {
      match descriptor
      case ListFoundIn(doc, _) =>
        doc.Ok() && subjects == doc.subjects && documents == {doc} + doc.documents && containers == doc.containers
      case ListFoundOn(sub, _) =>
        sub.Ok() && subjects == {sub} + sub.subjects && documents == sub.documents && containers == sub.containers
      case _ => subjects == {} && documents == {} && containers == {}
    }

    constructor (descriptor: SubjectListDescriptor)
      requires SubjectListChildrenOk(descriptor)
      ensures this.descriptor == descriptor && promise == None && Ok()
    {
      this.descriptor := descriptor;
      promise := None;
      match descriptor
      case ListFoundIn(doc, _) =>
        subjects, documents, containers := doc.subjects, {doc} + doc.documents, doc.containers;
      case ListFoundOn(sub, _) =>
        subjects, documents, containers := {sub} + sub.subjects, sub.documents, sub.containers;
      case _ =>
        subjects, documents, containers := {}, {}, {};
    }
  }

  /** The handles a descriptor nests are themselves well formed. */
  ghost predicate SubjectChildrenOk(d: SubjectDescriptor) {
    match d
    case SubjectFoundOn(sub, _) => sub.Ok()
    case SubjectEnsuredOn(sub, _) => sub.Ok()
    case SubjectFoundIn(doc, _) => doc.Ok()
    case SubjectEnsuredIn(doc, _) => doc.Ok()
    case _ => true
  }

  ghost predicate DocumentChildrenOk(d: DocumentDescriptor) {
    match d
    case DocIsAclFor(doc) => doc.Ok()
    case DocIsFoundOn(sub, _) => sub.Ok()
    case DocIsEnsuredOn(sub, _, con, _) => sub.Ok() && con.Ok()
    case _ => true
  }

  ghost predicate ContainerChildrenOk(d: ContainerDescriptor) {
    match d
    case ContainerFoundOn(sub, _) => sub.Ok()
    case ContainerContainedIn(con, _, _) => con.Ok()
    case _ => true
  }

  ghost predicate SubjectListChildrenOk(d: SubjectListDescriptor) {
    match d
    case ListFoundIn(doc, _) => doc.Ok()
    case ListFoundOn(sub, _) => sub.Ok()
    case _ => true
  }
}
