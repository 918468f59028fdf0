/**
 * The resolvers `fetchSubject`, `fetchDocument`, `fetchContainer` and `fetchSubjectList`, and
 * the fetchers they dispatch to. A resolver hands back the handle's settled value when it has
 * one; otherwise it runs the fetcher its descriptor's tag names and keeps the outcome in the
 * handle's slot, so a handle is resolved at most once.
 *
 * The handles are objects whose slots change in place; the Pod is passed along as a value,
 * from the state before a resolution (`s`) to the state after it (`s'`), through the step
 * functions the `Pod` methods are proved against. A fetcher resolves the handles it waits on
 * first; its ghost `at` is the Pod after that and before its own step ran.
 */
module Resolvers {
  import opened Wrappers
  import opened Rdf
  import opened PodStore
  import opened Descriptors
  import SubjectSteps
  import DocumentSteps
  import ContainerSteps
  import opened SubjectListSteps

  /** `internal_fetchSubject`. */
  method ResolveSubject(srv: Server, s: PodState, h: VirtualSubject) returns (r: Result<Option<Subject>>, s': PodState)
    requires Consistent(s) && h.Ok()
    modifies h, h.subjects, h.documents, h.containers
    decreases h.depth, 2
    ensures Consistent(s') && h.promise == Some(r)
    // A settled handle hands back its value and sends nothing to the Pod.
    ensures old(h.promise).Some? ==> r == old(h.promise).value && s' == s
    ensures old(h.promise).None? && h.descriptor.SubjectFoundAt? ==>
      Out(r, s') == SubjectSteps.FoundAtSpec(srv, s, h.descriptor.reference)
    ensures old(h.promise).None? && h.descriptor.SubjectOther? ==> r == Error(UnknownType(SubjectKind)) && s' == s
    // Whatever had settled keeps its value.
    ensures forall x: VirtualSubject | old(allocated(x)) && old(x.promise).Some? :: x.promise == old(x.promise)
    ensures forall x: VirtualDocument | old(allocated(x)) && old(x.promise).Some? :: x.promise == old(x.promise)
    ensures forall x: VirtualContainer | old(allocated(x)) && old(x.promise).Some? :: x.promise == old(x.promise)
  {
    if h.promise.Some? {
      return h.promise.value, s;
    }
    r, s' := SelectSubject(srv, s, h);
    h.promise := Some(r);
  }

  /** The fetcher the descriptor's tag names, run on an unsettled Subject handle. */
  method SelectSubject(srv: Server, s: PodState, h: VirtualSubject) returns (r: Result<Option<Subject>>, s': PodState)
    requires Consistent(s) && h.Ok()
    modifies h.subjects, h.documents, h.containers
    decreases h.depth, 1
    ensures Consistent(s')
    ensures h.descriptor.SubjectFoundAt? ==>
      Out(r, s') == SubjectSteps.FoundAtSpec(srv, s, h.descriptor.reference)
    ensures h.descriptor.SubjectOther? ==> r == Error(UnknownType(SubjectKind)) && s' == s
    // The two fetchers that send nothing of their own read the settled handle they wait on.
    ensures h.descriptor.SubjectFoundOn? ==>
      h.descriptor.subject.promise.Some? && r == SubjectSteps.OnSubject(h.descriptor.subject.promise.value, h.descriptor.pred)
    ensures h.descriptor.SubjectFoundIn? ==>
      h.descriptor.document.promise.Some? && r == SubjectSteps.FoundInSpec(h.descriptor.document.promise.value, h.descriptor.locator)
    // Whatever had settled keeps its value.
    ensures forall x: VirtualSubject | old(allocated(x)) && old(x.promise).Some? :: x.promise == old(x.promise)
    ensures forall x: VirtualDocument | old(allocated(x)) && old(x.promise).Some? :: x.promise == old(x.promise)
    ensures forall x: VirtualContainer | old(allocated(x)) && old(x.promise).Some? :: x.promise == old(x.promise)
  {
    ghost var at;
    var d := h.descriptor;
    if d.SubjectFoundAt? {
      var o := SubjectSteps.FoundAtSpec(srv, s, d.reference);
      r, s' := o.result, o.state;
    } else if d.SubjectFoundOn? {
      r, s', at := GetOnSubject(srv, s, h);
    } else if d.SubjectEnsuredOn? {
      r, s', at := EnsureOnSubject(srv, s, h);
    } else if d.SubjectFoundIn? {
      r, s', at := GetWithRefs(srv, s, h);
    } else if d.SubjectEnsuredIn? {
      r, s', at := EnsureWithRefs(srv, s, h);
    } else {
      r, s' := Error(UnknownType(SubjectKind)), s;
    }
  }

  /** `getOnSubject`: the Subject the source Subject links to, in the source's Document. */
  method GetOnSubject(srv: Server, s: PodState, h: VirtualSubject) returns (r: Result<Option<Subject>>, s': PodState, ghost at: PodState)
    requires Consistent(s) && h.Ok() && h.descriptor.SubjectFoundOn?
    modifies h.subjects, h.documents, h.containers
    decreases h.depth, 0
    ensures Consistent(s') && s' == at
    ensures h.descriptor.subject.promise.Some?
    ensures r == SubjectSteps.OnSubject(h.descriptor.subject.promise.value, h.descriptor.pred)
    ensures forall x: VirtualSubject | old(allocated(x)) && old(x.promise).Some? :: x.promise == old(x.promise)
    ensures forall x: VirtualDocument | old(allocated(x)) && old(x.promise).Some? :: x.promise == old(x.promise)
    ensures forall x: VirtualContainer | old(allocated(x)) && old(x.promise).Some? :: x.promise == old(x.promise)
  {
    var src, mid := ResolveSubject(srv, s, h.descriptor.subject);
    at := mid;
    r, s' := SubjectSteps.OnSubject(src, h.descriptor.pred), mid;
  }

  /** `ensureOnSubject`: the linked Subject, created and linked when the link is missing. */
  method EnsureOnSubject(srv: Server, s: PodState, h: VirtualSubject) returns (r: Result<Option<Subject>>, s': PodState, ghost at: PodState)
    requires Consistent(s) && h.Ok() && h.descriptor.SubjectEnsuredOn?
    modifies h.subjects, h.documents, h.containers
    decreases h.depth, 0
    ensures Consistent(at) && Consistent(s')
    ensures h.descriptor.subject.promise.Some?
    ensures Out(r, s') == SubjectSteps.EnsureOnSubjectSpec(srv, at, h.descriptor.subject.promise.value, h.descriptor.pred)
    ensures forall x: VirtualSubject | old(allocated(x)) && old(x.promise).Some? :: x.promise == old(x.promise)
    ensures forall x: VirtualDocument | old(allocated(x)) && old(x.promise).Some? :: x.promise == old(x.promise)
    ensures forall x: VirtualContainer | old(allocated(x)) && old(x.promise).Some? :: x.promise == old(x.promise)
  {
    var src, mid := ResolveSubject(srv, s, h.descriptor.subject);
    at := mid;
    var o := SubjectSteps.EnsureOnSubjectSpec(srv, mid, src, h.descriptor.pred);
    r, s' := o.result, o.state;
  }

  /** `getWithRefs`: the Subject the locator picks out of the resolved Document. */
  method GetWithRefs(srv: Server, s: PodState, h: VirtualSubject) returns (r: Result<Option<Subject>>, s': PodState, ghost at: PodState)
    requires Consistent(s) && h.Ok() && h.descriptor.SubjectFoundIn?
    modifies h.subjects, h.documents, h.containers
    decreases h.depth, 0
    ensures Consistent(s') && s' == at
    ensures h.descriptor.document.promise.Some?
    ensures r == SubjectSteps.FoundInSpec(h.descriptor.document.promise.value, h.descriptor.locator)
    ensures forall x: VirtualSubject | old(allocated(x)) && old(x.promise).Some? :: x.promise == old(x.promise)
    ensures forall x: VirtualDocument | old(allocated(x)) && old(x.promise).Some? :: x.promise == old(x.promise)
    ensures forall x: VirtualContainer | old(allocated(x)) && old(x.promise).Some? :: x.promise == old(x.promise)
  {
    var doc, mid := ResolveDocument(srv, s, h.descriptor.document);
    at := mid;
    r, s' := SubjectSteps.FoundInSpec(doc, h.descriptor.locator), mid;
  }

  /** `ensureWithRefs`: the Subject the locator picks out, created in the Document when missing. */
  method EnsureWithRefs(srv: Server, s: PodState, h: VirtualSubject) returns (r: Result<Option<Subject>>, s': PodState, ghost at: PodState)
    requires Consistent(s) && h.Ok() && h.descriptor.SubjectEnsuredIn?
    modifies h.subjects, h.documents, h.containers
    decreases h.depth, 0
    ensures Consistent(at) && Consistent(s')
    ensures h.descriptor.document.promise.Some?
    ensures Out(r, s') == SubjectSteps.EnsuredInSpec(srv, at, h.descriptor.document.promise.value, h.descriptor.locator)
    ensures forall x: VirtualSubject | old(allocated(x)) && old(x.promise).Some? :: x.promise == old(x.promise)
    ensures forall x: VirtualDocument | old(allocated(x)) && old(x.promise).Some? :: x.promise == old(x.promise)
    ensures forall x: VirtualContainer | old(allocated(x)) && old(x.promise).Some? :: x.promise == old(x.promise)
  {
    var doc, mid := ResolveDocument(srv, s, h.descriptor.document);
    at := mid;
    var o := SubjectSteps.EnsuredInSpec(srv, mid, doc, h.descriptor.locator);
    r, s' := o.result, o.state;
  }

  /** `fetchDocument`. */
  method ResolveDocument(srv: Server, s: PodState, h: VirtualDocument) returns (r: Result<Option<Doc>>, s': PodState)
    requires Consistent(s) && h.Ok()
    modifies h, h.subjects, h.documents, h.containers
    decreases h.depth, 2
    ensures Consistent(s') && h.promise == Some(r)
    ensures old(h.promise).Some? ==> r == old(h.promise).value && s' == s
    ensures old(h.promise).None? && h.descriptor.DocByRef? ==>
      Out(r, s') == DocumentSteps.FetchByRefSpec(srv, s, h.descriptor.reference)
    ensures old(h.promise).None? && h.descriptor.DocOther? ==> r == Error(UnknownType(DocumentKind)) && s' == s
    ensures forall x: VirtualSubject | old(allocated(x)) && old(x.promise).Some? :: x.promise == old(x.promise)
    ensures forall x: VirtualDocument | old(allocated(x)) && old(x.promise).Some? :: x.promise == old(x.promise)
    ensures forall x: VirtualContainer | old(allocated(x)) && old(x.promise).Some? :: x.promise == old(x.promise)
  {
    if h.promise.Some? {
      return h.promise.value, s;
    }
    r, s' := SelectDocument(srv, s, h);
    h.promise := Some(r);
  }

  /** The fetcher the descriptor's tag names, run on an unsettled Document handle. */
  method SelectDocument(srv: Server, s: PodState, h: VirtualDocument) returns (r: Result<Option<Doc>>, s': PodState)
    requires Consistent(s) && h.Ok()
    modifies h.subjects, h.documents, h.containers
    decreases h.depth, 1
    ensures Consistent(s')
    ensures h.descriptor.DocByRef? ==>
      Out(r, s') == DocumentSteps.FetchByRefSpec(srv, s, h.descriptor.reference)
    ensures h.descriptor.DocOther? ==> r == Error(UnknownType(DocumentKind)) && s' == s
    ensures forall x: VirtualSubject | old(allocated(x)) && old(x.promise).Some? :: x.promise == old(x.promise)
    ensures forall x: VirtualDocument | old(allocated(x)) && old(x.promise).Some? :: x.promise == old(x.promise)
    ensures forall x: VirtualContainer | old(allocated(x)) && old(x.promise).Some? :: x.promise == old(x.promise)
  {
    ghost var at;
    var d := h.descriptor;
    if d.DocByRef? {
      var o := DocumentSteps.FetchByRefSpec(srv, s, d.reference);
      r, s' := o.result, o.state;
    } else if d.DocIsAclFor? {
      r, s', at := GetFromAcl(srv, s, h);
    } else if d.DocIsFoundOn? {
      r, s', at := GetForRef(srv, s, h);
    } else if d.DocIsEnsuredOn? {
      r, s', at := EnsureForRef(srv, s, h);
    } else {
      r, s' := Error(UnknownType(DocumentKind)), s;
    }
  }

  /** `getFromAcl`: the ACL document of the resolved Document. */
  method GetFromAcl(srv: Server, s: PodState, h: VirtualDocument) returns (r: Result<Option<Doc>>, s': PodState, ghost at: PodState)
    requires Consistent(s) && h.Ok() && h.descriptor.DocIsAclFor?
    modifies h.subjects, h.documents, h.containers
    decreases h.depth, 0
    ensures Consistent(at) && Consistent(s')
    ensures h.descriptor.document.promise.Some?
    ensures Out(r, s') == DocumentSteps.AclForSpec(srv, at, h.descriptor.document.promise.value)
    ensures forall x: VirtualSubject | old(allocated(x)) && old(x.promise).Some? :: x.promise == old(x.promise)
    ensures forall x: VirtualDocument | old(allocated(x)) && old(x.promise).Some? :: x.promise == old(x.promise)
    ensures forall x: VirtualContainer | old(allocated(x)) && old(x.promise).Some? :: x.promise == old(x.promise)
  {
    var main, mid := ResolveDocument(srv, s, h.descriptor.document);
    at := mid;
    var o := DocumentSteps.AclForSpec(srv, mid, main);
    r, s' := o.result, o.state;
  }

  /** `getForRef`: the Document the resolved Subject links to. */
  method GetForRef(srv: Server, s: PodState, h: VirtualDocument) returns (r: Result<Option<Doc>>, s': PodState, ghost at: PodState)
    requires Consistent(s) && h.Ok() && h.descriptor.DocIsFoundOn?
    modifies h.subjects, h.documents, h.containers
    decreases h.depth, 0
    ensures Consistent(at) && Consistent(s')
    ensures h.descriptor.subject.promise.Some?
    ensures Out(r, s') == DocumentSteps.FoundOnSpec(srv, at, h.descriptor.subject.promise.value, h.descriptor.pred)
    ensures forall x: VirtualSubject | old(allocated(x)) && old(x.promise).Some? :: x.promise == old(x.promise)
    ensures forall x: VirtualDocument | old(allocated(x)) && old(x.promise).Some? :: x.promise == old(x.promise)
    ensures forall x: VirtualContainer | old(allocated(x)) && old(x.promise).Some? :: x.promise == old(x.promise)
  {
    var sub, mid := ResolveSubject(srv, s, h.descriptor.subject);
    at := mid;
    var o := DocumentSteps.FoundOnSpec(srv, mid, sub, h.descriptor.pred);
    r, s' := o.result, o.state;
  }

  /**
   * `ensureForRef`: the Document the resolved Subject links to; when the link is missing, a new
   * Document in the fallback Container, linked from the Subject. The fallback Container is
   * resolved in that case.
   */
  method EnsureForRef(srv: Server, s: PodState, h: VirtualDocument) returns (r: Result<Option<Doc>>, s': PodState, ghost at: PodState)
    requires Consistent(s) && h.Ok() && h.descriptor.DocIsEnsuredOn?
    modifies h.subjects, h.documents, h.containers
    decreases h.depth, 0
    ensures Consistent(at) && Consistent(s')
    ensures h.descriptor.subject.promise.Some?
    ensures var sub, pred, con := h.descriptor.subject.promise.value, h.descriptor.pred, h.descriptor.fallbackContainer;
      if DocumentSteps.NeedsContainer(sub, pred) then
        con.promise.Some? &&
        Out(r, s') == DocumentSteps.CreateForRefSpec(srv, at, sub.value.value, pred, con.promise.value, h.descriptor.acl)
      else
        Out(r, s') == DocumentSteps.FoundOnSpec(srv, at, sub, pred)
    ensures forall x: VirtualSubject | old(allocated(x)) && old(x.promise).Some? :: x.promise == old(x.promise)
    ensures forall x: VirtualDocument | old(allocated(x)) && old(x.promise).Some? :: x.promise == old(x.promise)
    ensures forall x: VirtualContainer | old(allocated(x)) && old(x.promise).Some? :: x.promise == old(x.promise)
  {
    var d := h.descriptor;
    var sub, mid := ResolveSubject(srv, s, d.subject);
    at := mid;
    if DocumentSteps.NeedsContainer(sub, d.pred) {
      var container;
      container, mid := ResolveContainer(srv, mid, d.fallbackContainer);
      assert d.subject.promise == Some(sub);
      at := mid;
      var o := DocumentSteps.CreateForRefSpec(srv, mid, sub.value.value, d.pred, container, d.acl);
      r, s' := o.result, o.state;
    } else {
      var o := DocumentSteps.FoundOnSpec(srv, mid, sub, d.pred);
      r, s' := o.result, o.state;
    }
  }

  /** `internal_fetchContainer`. */
  method ResolveContainer(srv: Server, s: PodState, h: VirtualContainer) returns (r: Result<Option<Ref>>, s': PodState)
    requires Consistent(s) && h.Ok()
    modifies h, h.subjects, h.documents, h.containers
    decreases h.depth, 2
    ensures Consistent(s') && h.promise == Some(r)
    ensures old(h.promise).Some? ==> r == old(h.promise).value && s' == s
    // A Container given by its IRI is taken on trust: nothing is sent to the Pod.
    ensures old(h.promise).None? && h.descriptor.ContainerFoundAt? ==> r == Ok(Some(h.descriptor.reference)) && s' == s
    ensures old(h.promise).None? && h.descriptor.ContainerOther? ==> r == Error(UnknownType(ContainerKind)) && s' == s
    ensures forall x: VirtualSubject | old(allocated(x)) && old(x.promise).Some? :: x.promise == old(x.promise)
    ensures forall x: VirtualDocument | old(allocated(x)) && old(x.promise).Some? :: x.promise == old(x.promise)
    ensures forall x: VirtualContainer | old(allocated(x)) && old(x.promise).Some? :: x.promise == old(x.promise)
  {
    if h.promise.Some? {
      return h.promise.value, s;
    }
    ghost var at, parent;
    r, s', at, parent := SelectContainer(srv, s, h);
    h.promise := Some(r);
  }

  /** The fetcher the descriptor's tag names, run on an unsettled Container handle. */
  method SelectContainer(srv: Server, s: PodState, h: VirtualContainer) returns (r: Result<Option<Ref>>, s': PodState, ghost at: PodState, ghost parent: Result<Option<Ref>>)
    requires Consistent(s) && h.Ok()
    modifies h.subjects, h.documents, h.containers
    decreases h.depth, 1
    ensures Consistent(s')
    // A Container given by its IRI is taken on trust: nothing is sent to the Pod.
    ensures h.descriptor.ContainerFoundAt? ==> r == Ok(Some(h.descriptor.reference)) && s' == s
    ensures h.descriptor.ContainerOther? ==> r == Error(UnknownType(ContainerKind)) && s' == s
    ensures h.descriptor.ContainerFoundOn? ==>
      h.descriptor.subject.promise.Some? && r == ContainerSteps.FoundOnSpec(h.descriptor.subject.promise.value, h.descriptor.pred)
    // `ensureInContainer`: a rejected or null parent passes through from the state `at` its
    // resolution left behind, and a success is the child of the settled parent.
    ensures h.descriptor.ContainerContainedIn? ==>
      h.descriptor.container.promise.Some? && parent == h.descriptor.container.promise.value &&
      (parent.Error? ==> r == Error(parent.msg) && s' == at) && (parent == Ok(None) ==> r == Ok(None) && s' == at) &&
      (parent.Ok? && parent.value.Some? && r.Ok? ==> r.value == Some(ContainerSteps.ChildRef(parent.value.value, h.descriptor.name)))
    ensures forall x: VirtualSubject | old(allocated(x)) && old(x.promise).Some? :: x.promise == old(x.promise)
    ensures forall x: VirtualDocument | old(allocated(x)) && old(x.promise).Some? :: x.promise == old(x.promise)
    ensures forall x: VirtualContainer | old(allocated(x)) && old(x.promise).Some? :: x.promise == old(x.promise)
  {
    at, parent := s, Ok(None);
    var d := h.descriptor;
    if d.ContainerFoundAt? {
      r, s' := Ok(Some(d.reference)), s;
    } else if d.ContainerFoundOn? {
      r, s', at := GetContainerForRef(srv, s, h);
    } else if d.ContainerContainedIn? {
      r, s', at := EnsureInContainer(srv, s, h);
      parent := d.container.promise.value;
    } else {
      r, s' := Error(UnknownType(ContainerKind)), s;
    }
  }

  /** The Container's `getForRef`: the IRI the resolved Subject links to. */
  method GetContainerForRef(srv: Server, s: PodState, h: VirtualContainer) returns (r: Result<Option<Ref>>, s': PodState, ghost at: PodState)
    requires Consistent(s) && h.Ok() && h.descriptor.ContainerFoundOn?
    modifies h.subjects, h.documents, h.containers
    decreases h.depth, 0
    ensures Consistent(s') && s' == at
    ensures h.descriptor.subject.promise.Some?
    ensures r == ContainerSteps.FoundOnSpec(h.descriptor.subject.promise.value, h.descriptor.pred)
    ensures forall x: VirtualSubject | old(allocated(x)) && old(x.promise).Some? :: x.promise == old(x.promise)
    ensures forall x: VirtualDocument | old(allocated(x)) && old(x.promise).Some? :: x.promise == old(x.promise)
    ensures forall x: VirtualContainer | old(allocated(x)) && old(x.promise).Some? :: x.promise == old(x.promise)
  {
    var sub, mid := ResolveSubject(srv, s, h.descriptor.subject);
    at := mid;
    r, s' := ContainerSteps.FoundOnSpec(sub, h.descriptor.pred), mid;
  }

  /** `ensureInContainer`: the named child of the resolved parent, created when missing. */
  method EnsureInContainer(srv: Server, s: PodState, h: VirtualContainer) returns (r: Result<Option<Ref>>, s': PodState, ghost at: PodState)
    requires Consistent(s) && h.Ok() && h.descriptor.ContainerContainedIn?
    modifies h.subjects, h.documents, h.containers
    decreases h.depth, 0
    ensures Consistent(at) && Consistent(s')
    ensures h.descriptor.container.promise.Some?
    ensures Out(r, s') == ContainerSteps.EnsureInContainerSpec(srv, at, h.descriptor.container.promise.value, h.descriptor.name, h.descriptor.acl)
    ensures forall x: VirtualSubject | old(allocated(x)) && old(x.promise).Some? :: x.promise == old(x.promise)
    ensures forall x: VirtualDocument | old(allocated(x)) && old(x.promise).Some? :: x.promise == old(x.promise)
    ensures forall x: VirtualContainer | old(allocated(x)) && old(x.promise).Some? :: x.promise == old(x.promise)
  {
    var d := h.descriptor;
    var parent, mid := ResolveContainer(srv, s, d.container);
    at := mid;
    var o := ContainerSteps.EnsureInContainerSpec(srv, mid, parent, d.name, d.acl);
    r, s' := o.result, o.state;
  }

  /** `fetchSubjectList`; only lists found in a Document are resolved. */
  method ResolveSubjectList(srv: Server, s: PodState, h: VirtualSubjectList) returns (r: Result<Option<seq<Subject>>>, s': PodState)
    requires Consistent(s) && h.Ok()
    modifies h, h.subjects, h.documents, h.containers
    ensures Consistent(s') && h.promise == Some(r)
    ensures old(h.promise).Some? ==> r == old(h.promise).value && s' == s
    ensures old(h.promise).None? && h.descriptor.ListFoundIn? ==>
      h.descriptor.document.promise.Some? && r == ListWithRefs(h.descriptor.document.promise.value, h.descriptor.references)
    ensures old(h.promise).None? && !h.descriptor.ListFoundIn? ==> r == Error(UnknownType(SubjectListKind)) && s' == s
    ensures forall x: VirtualSubject | old(allocated(x)) && old(x.promise).Some? :: x.promise == old(x.promise)
    ensures forall x: VirtualDocument | old(allocated(x)) && old(x.promise).Some? :: x.promise == old(x.promise)
    ensures forall x: VirtualContainer | old(allocated(x)) && old(x.promise).Some? :: x.promise == old(x.promise)
  {
    if h.promise.Some? {
      return h.promise.value, s;
    }
    var d := h.descriptor;
    if d.ListFoundIn? {
      var doc;
      doc, s' := ResolveDocument(srv, s, d.document);
      r := ListWithRefs(doc, d.references);
    } else {
      r, s' := Error(UnknownType(SubjectListKind)), s;
    }
    h.promise := Some(r);
  }
}
