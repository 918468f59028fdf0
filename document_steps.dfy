/**
 * The branches of the Document resolver (src/actors/document.ts) once the handles they
 * nest have settled: fetching by IRI, following a document's ACL location, following a
 * subject's reference, and creating a document in a fallback container, linking it from
 * the subject and writing its access rules.
 */
module DocumentSteps {
  import opened Wrappers
  import opened Rdf
  import opened PodStore
  import opened AclModel
  import opened AclService
  import opened SubjectSteps


  /** A fetch as a resolver settles it: the document, or the rejection. */
  function Lift(o: Out<Doc>): (r: Out<Option<Doc>>)
    ensures r.state == o.state
    ensures r.result.Ok? <==> o.result.Ok?
    ensures o.result.Ok? ==> r.result.value == Some(o.result.value)
    ensures o.result.Error? ==> r.result == Error(o.result.msg)
  {
    if o.result.Ok? then Out(Ok(Some(o.result.value)), o.state) else Out(Error(o.result.msg), o.state)
  }

  /** `fetchByRef`: the document that holds `reference`. */
  function FetchByRefSpec(srv: Server, s: PodState, reference: Ref): (o: Out<Option<Doc>>)
    ensures Consistent(s) ==> Consistent(o.state)
  {
    Lift(FetchStep(srv, s, reference))
  }

  /** A non-empty IRI, as a truthiness test (`!aclRef`, `!container`) reads a string or null. */
  predicate Present(r: Option<Ref>) {
    r.Some? && r.value != ""
  }

  /** `getFromAcl`: the ACL document at the location the main document's response named. */
  function AclForSpec(srv: Server, s: PodState, main: Result<Option<Doc>>): (o: Out<Option<Doc>>)
    ensures Consistent(s) ==> Consistent(o.state)
    ensures main.Error? ==> o == Out(Error(main.msg), s)
    ensures main.Ok? && (main.value.None? || !Present(main.value.value.acl)) ==> o == Out(Ok(None), s)
  {
    if main.Error? then Out(Error(main.msg), s)
    else if main.value.None? || !Present(main.value.value.acl) then Out(Ok(None), s)
    else FetchByRefSpec(srv, s, main.value.value.acl.value)
  }

  /**
   * Following a fetched document's ACL location gives the stored document there, or a rejection
   * when there is none; the fetch is the only request.
   */
  lemma AclForFetches(srv: Server, s: PodState, main: Doc)
    requires Consistent(s) && Present(main.acl)
    ensures var a := DocumentPart(main.acl.value);
      var o := AclForSpec(srv, s, Ok(Some(main)));
      && o.state == s.(log := s.log + [Fetched(a)])
      && (o.result.Ok? <==> a in s.docs)
      && (o.result.Ok? ==> o.result.value.Some? && o.result.value.value.ref == a && o.result.value.value.saved)
  {
  }

  /** `getForRef`: the document that holds the object of `pred` on the settled subject. */
  function FoundOnSpec(srv: Server, s: PodState, subject: Result<Option<Subject>>, pred: Ref): (o: Out<Option<Doc>>)
    ensures Consistent(s) ==> Consistent(o.state)
    ensures subject.Error? ==> o == Out(Error(subject.msg), s)
    ensures subject == Ok(None) ==> o == Out(Ok(None), s)
    ensures subject.Ok? && subject.value.Some? && TargetOf(subject.value.value, pred).None? ==> o == Out(Ok(None), s)
    ensures subject.Ok? && subject.value.Some? && TargetOf(subject.value.value, pred).Some? ==>
      o == FetchByRefSpec(srv, s, TargetOf(subject.value.value, pred).value)
  {
    if subject.Error? then Out(Error(subject.msg), s)
    else if subject.value.None? then Out(Ok(None), s)
    else
      var target := TargetOf(subject.value.value, pred);
      if target.None? then Out(Ok(None), s) else FetchByRefSpec(srv, s, target.value)
  }

  /** `ensureForRef` needs its fallback container exactly when the settled subject has no `pred`. */
  predicate NeedsContainer(subject: Result<Option<Subject>>, pred: Ref) {
    subject.Ok? && subject.value.Some? && TargetOf(subject.value.value, pred).None?
  }

  /**
   * When the settled subject already refers to a document (or is null, or rejected),
   * `ensureForRef` is `getForRef`: it creates and saves nothing, settles with null only for a
   * null subject, and any document it settles with is one the Pod holds.
   */
  lemma EnsuredOnReuses(srv: Server, s: PodState, subject: Result<Option<Subject>>, pred: Ref)
    requires Consistent(s) && !NeedsContainer(subject, pred)
    ensures var o := FoundOnSpec(srv, s, subject, pred);
      && o.state.docs == s.docs && o.state.longest == s.longest
      && (o.result == Ok(None) <==> subject == Ok(None))
      && (o.result.Ok? && o.result.value.Some? ==>
        o.result.value.value.saved && o.result.value.value.ref in s.docs)
  {
  }

  /**
   * The first half of `ensureForRef` once the fallback container is known: create a document in
   * it, save it, point the subject's `pred` at it (`setRef`) and save that subject.
   * The saved new document, and the Pod after both saves.
   */
  function LinkStep(srv: Server, s: PodState, sub: Subject, pred: Ref, container: Ref): (o: Out<Doc>)
    requires Consistent(s)
    ensures Consistent(o.state) && o.result.Ok?
    ensures o.result.value.ref == NewDocRef(s, container)
    ensures o.state.log == s.log + [Saved(NewDocRef(s, container))] + [Saved(sub.doc.ref)]
  {
    var s1 := CreateInState(s, container);
    var created := SaveStep(srv, s1, EmptyDoc(NewDocRef(s, container)), None);
    var saved := created.result.value;
    var linked := SaveStep(srv, created.state, SetRef(sub.doc, sub.id, pred, saved.ref), Some([sub.id]));
    Out(Ok(saved), linked.state)
  }

  /**
   * The created document was not on the Pod before and is afterwards, and the subject, as
   * stored, now refers to it and to nothing else under `pred`.
   */
  lemma LinkStepLinks(srv: Server, s: PodState, sub: Subject, pred: Ref, container: Ref)
    requires Consistent(s)
    ensures var o := LinkStep(srv, s, sub, pred, container);
      && NewDocRef(s, container) !in s.docs
      && NewDocRef(s, container) in o.state.docs
      && sub.doc.ref in o.state.docs
      && sub.id in o.state.docs[sub.doc.ref].order
      && Values(o.state.docs[sub.doc.ref], sub.id, pred) == [NewDocRef(s, container)]
  {
    NewDocRefIsNew(s, container);
    var s1 := CreateInState(s, container);
    var created := SaveStep(srv, s1, EmptyDoc(NewDocRef(s, container)), None);
    var ref := created.result.value.ref;
    var d := SetRef(sub.doc, sub.id, pred, ref);
    var linked := SaveStep(srv, created.state, d, Some([sub.id]));
    assert LinkStep(srv, s, sub, pred, container) == Out(Ok(created.result.value), linked.state);
    assert sub.id in d.props;
    MergeValues(Stored(created.state.docs, d.ref), d, [sub.id], sub.id, pred);
    ValuesSetRef(sub.doc, sub.id, pred, ref, sub.id, pred);
  }

  /** The ACL document the inline writer edits is saved under this IRI. */
  function AclTarget(s: PodState, aclRef: Ref): Ref {
    if DocumentPart(aclRef) in s.docs then DocumentPart(aclRef) else aclRef
  }

  /**
   * The second half of `ensureForRef`: with ACL settings, fetch (or start) the new document's
   * ACL document, reuse or add a subject per public and agent entry, write type, accessTo and
   * modes, and save it. Settles with the new document.
   */
  function InlineAclStep(srv: Server, s: PodState, saved: Doc, acl: Option<AclSettings>): (o: Out<Option<Doc>>)
    requires Consistent(s)
    ensures Consistent(o.state) && s.log <= o.state.log
    ensures acl.None? ==> o == Out(Error(UndefinedAcl), s)
    ensures acl.Some? && !HasAclSettings(acl.value) ==> o == Out(Ok(Some(saved)), s)
    ensures acl.Some? && HasAclSettings(acl.value) && saved.acl.None? ==> o == Out(Error(NoDocumentAclLocation), s)
    ensures o.result.Ok? ==> o.result.value == Some(saved)
    ensures acl.Some? && HasAclSettings(acl.value) && saved.acl.Some? ==>
      var w := InlineAclWrite(srv, s, saved.ref, saved.acl.value, acl.value);
      && o.state == w.state
      && (o.result.Ok? <==> w.result.Ok?)
      && (w.result.Error? ==> o.result == Error(w.result.msg))
  {
    if acl.None? then Out(Error(UndefinedAcl), s)
    else if !HasAclSettings(acl.value) then Out(Ok(Some(saved)), s)
    else if saved.acl.None? then Out(Error(NoDocumentAclLocation), s)
    else
      var w := InlineAclWrite(srv, s, saved.ref, saved.acl.value, acl.value);
      Out(if w.result.Ok? then Ok(Some(saved)) else Error(w.result.msg), w.state)
  }

  /** Fetch or start the ACL document at `aclRef`, write the inline rules for `docRef`, save it. */
  function InlineAclWrite(srv: Server, s: PodState, docRef: Ref, aclRef: Ref, settings: AclSettings): (o: Out<Doc>)
    requires Consistent(s)
    ensures Consistent(o.state)
    ensures o.result.Error? ==> o.state.log == s.log + [Fetched(DocumentPart(aclRef))]
    ensures o.result.Ok? ==> o.state.log == s.log + [Fetched(DocumentPart(aclRef))] + [Saved(o.result.value.ref)]
  {
    var f := FetchStep(srv, s, aclRef);
    var aclDoc := AclDocument(srv, f, aclRef);
    if aclDoc.None? then Out(Error(AclFetchFailed), f.state)
    else SaveStep(srv, f.state, InlineApply(aclDoc.value, docRef, InlineEntries(settings)), None)
  }

  /**
   * With settings and an ACL location, the write fails only when there is no ACL document and
   * the library makes no local one; when it succeeds the saved ACL document, stored under the
   * fetched IRI (or the advertised one when nothing was there), grants every public and agent
   * entry's modes for the new document.
   */
  lemma InlineAclWriteGrants(srv: Server, s: PodState, docRef: Ref, a: Ref, settings: AclSettings)
    requires Consistent(s)
    ensures var o := InlineAclWrite(srv, s, docRef, a, settings);
      && (o.result.Error? <==> DocumentPart(a) !in s.docs && !srv.createsLocally)
      && (o.result.Error? ==> o.result.msg == AclFetchFailed)
      && (o.result.Ok? ==>
        && o.result.value.ref == AclTarget(s, a)
        && AclTarget(s, a) in o.state.docs
        && forall e | e in InlineEntries(settings) :: HasInlineGrant(o.state.docs[AclTarget(s, a)], docRef, e.modes))
  {
    var f := FetchStep(srv, s, a);
    var aclDoc := AclDocument(srv, f, a);
    if aclDoc.Some? {
      var es := InlineEntries(settings);
      var d := InlineApply(aclDoc.value, docRef, es);
      var o := SaveStep(srv, f.state, d, None);
      assert InlineAclWrite(srv, s, docRef, a, settings) == o;
      assert d.ref == AclTarget(s, a);
      InlineApplyGrants(aclDoc.value, docRef, es);
      forall e | e in es
        ensures HasInlineGrant(o.state.docs[d.ref], docRef, e.modes)
      {
        var i :| 0 <= i < |es| && es[i] == e;
        InlineGrantView(d, o.state.docs[d.ref], docRef, e.modes);
      }
    }
  }

  /** An inline grant depends on the statements only. */
  lemma InlineGrantView(d: Doc, v: Doc, docRef: Ref, m: Modes)
    requires HasInlineGrant(d, docRef, m) && v.order == d.order && v.props == d.props
    ensures HasInlineGrant(v, docRef, m)
  {
    var t :| InlineGrant(d, t, docRef, m);
    assert forall p :: Values(v, t, p) == Values(d, t, p);
    assert InlineGrant(v, t, docRef, m);
  }

  /**
   * `ensureForRef` once the fallback container has settled: a rejection passes through, a
   * null or empty container gives null, otherwise the new document is created, linked and
   * given its access rules.
   */
  function CreateForRefSpec(srv: Server, s: PodState, sub: Subject, pred: Ref, container: Result<Option<Ref>>,
                            acl: Option<AclSettings>): (o: Out<Option<Doc>>)
    requires Consistent(s)
    ensures Consistent(o.state)
    ensures container.Error? ==> o == Out(Error(container.msg), s)
    ensures container.Ok? && !Present(container.value) ==> o == Out(Ok(None), s)
    ensures container.Ok? && Present(container.value) ==>
      var l := LinkStep(srv, s, sub, pred, container.value.value);
      && l.state.log <= o.state.log
      && (acl.None? ==> o == Out(Error(UndefinedAcl), l.state))
      && (o.result.Ok? ==> o.result.value == Some(l.result.value))
  {
    if container.Error? then Out(Error(container.msg), s)
    else if !Present(container.value) then Out(Ok(None), s)
    else
      var l := LinkStep(srv, s, sub, pred, container.value.value);
      InlineAclStep(srv, l.state, l.result.value, acl)
  }

  /**
   * The inline writer loses no stored document, and changes none but its ACL document and
   * the container that holds it.
   */
  lemma InlineAclWriteFrame(srv: Server, s: PodState, docRef: Ref, a: Ref, settings: AclSettings)
    requires Consistent(s)
    ensures var o := InlineAclWrite(srv, s, docRef, a, settings);
      && (forall k | k in s.docs :: k in o.state.docs)
      && (forall k | k in s.docs && k != AclTarget(s, a) && k != Parent(AclTarget(s, a)) :: o.state.docs[k] == s.docs[k])
  {
    var f := FetchStep(srv, s, a);
    var aclDoc := AclDocument(srv, f, a);
    if aclDoc.Some? {
      var d := InlineApply(aclDoc.value, docRef, InlineEntries(settings));
      assert d.ref == AclTarget(s, a);
      var w := SaveStep(srv, f.state, d, None);
      assert InlineAclWrite(srv, s, docRef, a, settings) == w;
      assert w.state.docs == Written(s.docs, d, None);
    }
  }

  /**
   * `ensureForRef` end to end, once the fallback container has settled on an IRI and the
   * descriptor carries settings: on success the result is the new document, which was not on
   * the Pod before and is afterwards, and its ACL document grants every public and agent entry.
   */
  lemma CreateForRefEstablishes(srv: Server, s: PodState, sub: Subject, pred: Ref, c: Ref, settings: AclSettings)
    requires Consistent(s) && c != "" && HasAclSettings(settings)
    ensures var o := CreateForRefSpec(srv, s, sub, pred, Ok(Some(c)), Some(settings));
      var l := LinkStep(srv, s, sub, pred, c);
      o.result.Ok? ==>
        && o.result.value == Some(l.result.value) && l.result.value.ref == NewDocRef(s, c)
        && NewDocRef(s, c) !in s.docs && NewDocRef(s, c) in o.state.docs
        && l.result.value.acl.Some?
        && var t := AclTarget(l.state, l.result.value.acl.value);
        && t in o.state.docs
        && forall e | e in InlineEntries(settings) :: HasInlineGrant(o.state.docs[t], NewDocRef(s, c), e.modes)
  {
    var l := LinkStep(srv, s, sub, pred, c);
    CreateForRefUnfold(srv, s, sub, pred, c, settings);
    LinkStepLinks(srv, s, sub, pred, c);
    InlineAclStepGrants(srv, l.state, l.result.value, settings);
    if l.result.value.acl.Some? {
      InlineAclStepFrame(srv, l.state, l.result.value, settings);
    }
  }

  /**
   * The link from the Subject to the new Document survives the inline ACL write unless the write
   * landed on the Subject's own Document or on its parent container.
   */
  lemma CreateForRefKeepsLink(srv: Server, s: PodState, sub: Subject, pred: Ref, c: Ref, settings: AclSettings)
    requires Consistent(s) && c != "" && HasAclSettings(settings)
    ensures var o := CreateForRefSpec(srv, s, sub, pred, Ok(Some(c)), Some(settings));
      var l := LinkStep(srv, s, sub, pred, c);
      o.result.Ok? && l.result.value.acl.Some? &&
      AclTarget(l.state, l.result.value.acl.value) != sub.doc.ref &&
      Parent(AclTarget(l.state, l.result.value.acl.value)) != sub.doc.ref ==>
        sub.doc.ref in o.state.docs && Values(o.state.docs[sub.doc.ref], sub.id, pred) == [NewDocRef(s, c)]
  {
    var l := LinkStep(srv, s, sub, pred, c);
    CreateForRefUnfold(srv, s, sub, pred, c, settings);
    LinkStepLinks(srv, s, sub, pred, c);
    InlineAclStepKeeps(srv, l.state, l.result.value, settings, sub.doc.ref, sub.id, pred, NewDocRef(s, c));
  }

  /** With a settled container, `createForRef` is the inline ACL step on the linked document. */
  lemma CreateForRefUnfold(srv: Server, s: PodState, sub: Subject, pred: Ref, c: Ref, settings: AclSettings)
    requires Consistent(s) && c != ""
    ensures var l := LinkStep(srv, s, sub, pred, c);
      CreateForRefSpec(srv, s, sub, pred, Ok(Some(c)), Some(settings)) == InlineAclStep(srv, l.state, l.result.value, Some(settings))
  {
  }

  /**
   * A successful inline step with settings stored the grants for `saved` in its ACL document.
   */
  lemma InlineAclStepGrants(srv: Server, s: PodState, saved: Doc, settings: AclSettings)
    requires Consistent(s) && HasAclSettings(settings)
    ensures var o := InlineAclStep(srv, s, saved, Some(settings));
      o.result.Ok? ==>
        && o.result.value == Some(saved)
        && saved.acl.Some?
        && var t := AclTarget(s, saved.acl.value);
        && t in o.state.docs
        && (forall e | e in InlineEntries(settings) :: HasInlineGrant(o.state.docs[t], saved.ref, e.modes))
  {
    if saved.acl.Some? {
      InlineAclWriteGrants(srv, s, saved.ref, saved.acl.value, settings);
      var w := InlineAclWrite(srv, s, saved.ref, saved.acl.value, settings);
      assert InlineAclStep(srv, s, saved, Some(settings)).state == w.state;
    }
  }

  /** A value stored outside the ACL document and its parent container survives a successful inline step. */
  lemma InlineAclStepKeeps(srv: Server, s: PodState, saved: Doc, settings: AclSettings, r: Ref, id: Ref, pred: Ref, v: Ref)
    requires Consistent(s) && HasAclSettings(settings)
    requires r in s.docs && Values(s.docs[r], id, pred) == [v]
    ensures var o := InlineAclStep(srv, s, saved, Some(settings));
      o.result.Ok? && saved.acl.Some? && AclTarget(s, saved.acl.value) != r && Parent(AclTarget(s, saved.acl.value)) != r ==>
        r in o.state.docs && Values(o.state.docs[r], id, pred) == [v]
  {
    if saved.acl.Some? {
      var o := InlineAclStep(srv, s, saved, Some(settings));
      var t := AclTarget(s, saved.acl.value);
      InlineAclStepFrame(srv, s, saved, settings);
      FrameKeeps(s.docs, o.state.docs, t, r, id, pred, v);
    }
  }

  /** The inline step with settings keeps every stored document and changes none but the ACL document and its parent. */
  lemma InlineAclStepFrame(srv: Server, s: PodState, saved: Doc, settings: AclSettings)
    requires Consistent(s) && HasAclSettings(settings) && saved.acl.Some?
    ensures var o := InlineAclStep(srv, s, saved, Some(settings));
      var t := AclTarget(s, saved.acl.value);
      && (forall k | k in s.docs :: k in o.state.docs)
      && (forall k | k in s.docs && k != t && k != Parent(t) :: o.state.docs[k] == s.docs[k])
  {
    InlineAclWriteFrame(srv, s, saved.ref, saved.acl.value, settings);
    assert InlineAclStep(srv, s, saved, Some(settings)).state == InlineAclWrite(srv, s, saved.ref, saved.acl.value, settings).state;
  }

  /** A write confined to `t` and its parent leaves a value stored elsewhere in place. */
  lemma FrameKeeps(before: map<Ref, Doc>, after: map<Ref, Doc>, t: Ref, r: Ref, id: Ref, pred: Ref, v: Ref)
    requires forall k | k in before :: k in after
    requires forall k | k in before && k != t && k != Parent(t) :: after[k] == before[k]
    requires r in before && Values(before[r], id, pred) == [v]
    ensures r != t && r != Parent(t) ==> r in after && Values(after[r], id, pred) == [v]
  {
  }

  /** The inline writer's steps on `es + [e]` are its steps on `es`, then `e`. */
  lemma {:induction false} InlineApplyAppend(d: Doc, docRef: Ref, es: seq<Entry>, e: Entry)
    ensures InlineApply(d, docRef, es + [e]) == InlineStep(InlineApply(d, docRef, es), docRef, e)
  {
    assert (es + [e])[..|es|] == es;
  }

  lemma {:induction false} InlineAgentsNext(d0: Doc, docRef: Ref, done: seq<Entry>, agents: seq<(Ref, Modes)>, i: nat)
    requires i < |agents|
    ensures InlineApply(d0, docRef, done + AgentEntries(agents[..i + 1]))
         == InlineStep(InlineApply(d0, docRef, done + AgentEntries(agents[..i])), docRef, AgentEntry(agents[i].0, agents[i].1))
  {
    assert agents[..i + 1][..i] == agents[..i];
    assert done + AgentEntries(agents[..i + 1]) == (done + AgentEntries(agents[..i])) + [AgentEntry(agents[i].0, agents[i].1)];
    InlineApplyAppend(d0, docRef, done + AgentEntries(agents[..i]), AgentEntry(agents[i].0, agents[i].1));
  }

  /** The public block, then the `forEach` over the agents, on the ACL document. */
  method InlineRules(acl: Doc, docRef: Ref, settings: AclSettings) returns (doc: Doc)
    ensures doc == InlineApply(acl, docRef, InlineEntries(settings))
  {
    var pub := PublicGroup(settings);
    doc := acl;
    if settings.public.Some? {
      InlineApplyAppend(acl, docRef, [], PublicEntry(settings.public.value));
      doc := InlineStep(doc, docRef, PublicEntry(settings.public.value));
    }
    var agents := if settings.agents.Some? then settings.agents.value else [];
    doc := InlineAgentRules(doc, docRef, agents, acl, pub);
    InlineEntriesGroups(settings);
  }

  lemma InlineEntriesGroups(settings: AclSettings)
    ensures InlineEntries(settings) == PublicGroup(settings) + AgentEntries(if settings.agents.Some? then settings.agents.value else [])
  {
    var t := settings.(origins := None);
    assert OriginGroup(t) == [];
    assert PublicGroup(t) + AgentGroup(t) + [] == PublicGroup(t) + AgentGroup(t);
  }

  /** The `forEach` over the agents of the settings. */
  method InlineAgentRules(doc: Doc, docRef: Ref, agents: seq<(Ref, Modes)>, ghost d0: Doc, ghost done: seq<Entry>)
    returns (r: Doc)
    requires doc == InlineApply(d0, docRef, done)
    ensures r == InlineApply(d0, docRef, done + AgentEntries(agents))
  {
    r := doc;
    assert done + AgentEntries(agents[..0]) == done;
    for i := 0 to |agents|
      invariant r == InlineApply(d0, docRef, done + AgentEntries(agents[..i]))
    {
      InlineAgentsNext(d0, docRef, done, agents, i);
      r := InlineStep(r, docRef, AgentEntry(agents[i].0, agents[i].1));
    }
    assert agents[..|agents|] == agents;
  }

  /** `fetchByRef` of the Document resolver on the Pod. */
  method FetchByRef(pod: Pod, reference: Ref) returns (r: Result<Option<Doc>>)
    modifies pod`log
    ensures Out(r, pod.State()) == FetchByRefSpec(pod.server, old(pod.State()), reference)
  {
    var f := pod.Fetch(reference);
    r := if f.Ok? then Ok(Some(f.value)) else Error(f.msg);
  }

  /** `getFromAcl` on the Pod, given the settled main document. */
  method AclFor(pod: Pod, main: Result<Option<Doc>>) returns (r: Result<Option<Doc>>)
    modifies pod`log
    ensures Out(r, pod.State()) == AclForSpec(pod.server, old(pod.State()), main)
  {
    if main.Error? {
      return Error(main.msg);
    }
    if main.value.None? || !Present(main.value.value.acl) {
      return Ok(None);
    }
    r := FetchByRef(pod, main.value.value.acl.value);
  }

  /** `getForRef` on the Pod, given the settled subject. */
  method FoundOn(pod: Pod, subject: Result<Option<Subject>>, pred: Ref) returns (r: Result<Option<Doc>>)
    modifies pod`log
    ensures Out(r, pod.State()) == FoundOnSpec(pod.server, old(pod.State()), subject, pred)
  {
    if subject.Error? {
      return Error(subject.msg);
    } else if subject.value.None? {
      return Ok(None);
    }
    var target := TargetOf(subject.value.value, pred);
    if target.None? {
      return Ok(None);
    }
    r := FetchByRef(pod, target.value);
  }

  /** Create the document in the container, save it, link it from the subject, save the subject. */
  method Link(pod: Pod, sub: Subject, pred: Ref, container: Ref) returns (saved: Doc)
    requires pod.Valid()
    modifies pod
    ensures pod.Valid()
    ensures Out(Ok(saved), pod.State()) == LinkStep(pod.server, old(pod.State()), sub, pred, container)
  {
    var created := pod.CreateDocumentInContainer(container);
    saved := pod.Save(created, None);
    var linked := SetRef(sub.doc, sub.id, pred, saved.ref);
    var _ := pod.Save(linked, Some([sub.id]));
  }

  /** The `configuresAcl` block of `ensureForRef` on the Pod. */
  method InlineAcl(pod: Pod, saved: Doc, acl: Option<AclSettings>) returns (r: Result<Option<Doc>>)
    requires pod.Valid()
    modifies pod
    ensures pod.Valid()
    ensures Out(r, pod.State()) == InlineAclStep(pod.server, old(pod.State()), saved, acl)
  {
    if acl.None? {
      return Error(UndefinedAcl);
    }
    if !HasAclSettings(acl.value) {
      return Ok(Some(saved));
    }
    if saved.acl.None? {
      return Error(NoDocumentAclLocation);
    }
    var w := WriteInlineAcl(pod, saved.ref, saved.acl.value, acl.value);
    r := if w.Ok? then Ok(Some(saved)) else Error(w.msg);
  }

  /** Fetch or start the ACL document, write the inline rules, save it. */
  method WriteInlineAcl(pod: Pod, docRef: Ref, aclRef: Ref, settings: AclSettings) returns (r: Result<Doc>)
    requires pod.Valid()
    modifies pod
    ensures pod.Valid()
    ensures Out(r, pod.State()) == InlineAclWrite(pod.server, old(pod.State()), docRef, aclRef, settings)
  {
    var fetched := pod.Fetch(aclRef);
    var aclDoc := if fetched.Ok? then Some(fetched.value) else CreateDocument(pod.server, aclRef);
    if aclDoc.None? {
      return Error(AclFetchFailed);
    }
    var doc := InlineRules(aclDoc.value, docRef, settings);
    var saved := pod.Save(doc, None);
    r := Ok(saved);
  }

  /** The rest of `ensureForRef` on the Pod, given the settled fallback container. */
  method CreateForRef(pod: Pod, sub: Subject, pred: Ref, container: Result<Option<Ref>>, acl: Option<AclSettings>)
    returns (r: Result<Option<Doc>>)
    requires pod.Valid()
    modifies pod
    ensures pod.Valid()
    ensures Out(r, pod.State()) == CreateForRefSpec(pod.server, old(pod.State()), sub, pred, container, acl)
  {
    if container.Error? {
      return Error(container.msg);
    }
    if !Present(container.value) {
      return Ok(None);
    }
    var saved := Link(pod, sub, pred, container.value.value);
    r := InlineAcl(pod, saved, acl);
  }
}
