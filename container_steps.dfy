/**
 * The branches of the Container resolver (src/actors/container.ts) once the handles they
 * nest have settled. A container is named by its IRI; `ensureInContainer` makes the IRI of a
 * child container, looks for it, and when it is missing has the server create it by writing
 * and deleting a dummy document inside it, then optionally writes its access rules.
 */
module ContainerSteps {
  import opened Wrappers
  import opened Rdf
  import opened PodStore
  import opened AclModel
  import opened AclService
  import opened SubjectSteps

  /** `getForRef`: the object of `pred` on the settled subject, read without any request. */
  function FoundOnSpec(subject: Result<Option<Subject>>, pred: Ref): (r: Result<Option<Ref>>)
    ensures subject.Error? ==> r == Error(subject.msg)
    ensures r.Ok? && r.value.Some? <==> subject.Ok? && subject.value.Some? && TargetOf(subject.value.value, pred).Some?
    ensures r.Ok? && r.value.Some? ==> r.value.value in Values(subject.value.value.doc, subject.value.value.id, pred)
  {
    if subject.Error? then Error(subject.msg)
    else if subject.value.None? then Ok(None)
    else Ok(TargetOf(subject.value.value, pred))
  }

  /** `s.replace(/\/$/, "")`. */
  function DropTrailingSlash(s: string): (r: string)
    ensures if s != [] && s[|s| - 1] == '/' then s == r + "/" else r == s
  {
    if s != [] && s[|s| - 1] == '/' then s[..|s| - 1] else s
  }

  /** `s.replace(/^\//, "")`. */
  function DropLeadingSlash(s: string): (r: string)
    ensures if s != [] && s[0] == '/' then s == "/" + r else r == s
  {
    if s != [] && s[0] == '/' then s[1..] else s
  }

  /** The IRI of the child container `name` of `parent`: one slash between them, one at the end. */
  function ChildRef(parent: Ref, name: string): (r: Ref)
    ensures r != [] && r[|r| - 1] == '/'
  {
    DropTrailingSlash(parent) + "/" + DropTrailingSlash(DropLeadingSlash(name)) + "/"
  }

  /** A parent IRI with or without its trailing slash names the same child. */
  lemma ChildRefParentSlash(parent: Ref, name: string)
    requires parent == [] || parent[|parent| - 1] != '/'
    ensures ChildRef(parent + "/", name) == ChildRef(parent, name)
  {
    assert (parent + "/")[..|parent + "/"| - 1] == parent;
  }

  /** A name with a leading slash, a trailing slash, or both names the same child as without. */
  lemma ChildRefNameSlashes(parent: Ref, name: string)
    requires name == [] || (name[0] != '/' && name[|name| - 1] != '/')
    ensures ChildRef(parent, "/" + name) == ChildRef(parent, name)
    ensures ChildRef(parent, name + "/") == ChildRef(parent, name)
    ensures ChildRef(parent, "/" + name + "/") == ChildRef(parent, name)
  {
    var plain := DropTrailingSlash(DropLeadingSlash(name));
    assert plain == name;
    assert DropLeadingSlash("/" + name) == name by { assert ("/" + name)[1..] == name; }
    assert DropTrailingSlash(name + "/") == name by { assert (name + "/")[..|name + "/"| - 1] == name; }
    assert DropTrailingSlash(DropLeadingSlash(name + "/")) == name by {
      if name != [] {
        assert (name + "/")[0] == name[0];
        assert (name + "/")[..|name + "/"| - 1] == name;
      }
    }
    assert DropLeadingSlash("/" + name + "/") == name + "/" by { assert ("/" + name + "/")[1..] == name + "/"; }
  }

  /** A plain name gives a container directly inside the parent. */
  lemma ChildRefInParent(parent: Ref, name: string)
    requires '/' !in name
    ensures Parent(ChildRef(parent, name)) == DropTrailingSlash(parent) + "/"
  {
    var c := DropTrailingSlash(parent) + "/";
    assert DropLeadingSlash(name) == name && DropTrailingSlash(name) == name;
    var r := ChildRef(parent, name);
    assert r == c + name + "/";
    assert r[..|r| - 1] == c + name;
    DirPrefixAppend(c, name);
  }

  /**
   * `ensureInContainer` once the parent container has settled: a rejection passes through,
   * a null parent gives null, an existing child is handed back after one fetch, and a missing
   * one is created.
   */
  function EnsureInContainerSpec(srv: Server, s: PodState, parent: Result<Option<Ref>>, name: string,
                                 acl: Option<AclSettings>): (o: Out<Option<Ref>>)
    requires Consistent(s)
    ensures Consistent(o.state)
    ensures parent.Error? ==> o == Out(Error(parent.msg), s)
    ensures parent == Ok(None) ==> o == Out(Ok(None), s)
    ensures parent.Ok? && parent.value.Some? && o.result.Ok? ==> o.result.value == Some(ChildRef(parent.value.value, name))
  {
    if parent.Error? then Out(Error(parent.msg), s)
    else if parent.value.None? then Out(Ok(None), s)
    else ProbeOrCreate(srv, s, ChildRef(parent.value.value, name), acl)
  }

  /** Fetch the container `c`; hand it back when it is there, create it otherwise. */
  function ProbeOrCreate(srv: Server, s: PodState, c: Ref, acl: Option<AclSettings>): (o: Out<Option<Ref>>)
    requires Consistent(s)
    ensures Consistent(o.state)
    ensures o.result.Ok? ==> o.result.value == Some(c)
  {
    var probe := FetchStep(srv, s, c);
    if probe.result.Ok? then Out(Ok(Some(c)), probe.state)
    else CreateContainer(srv, probe.state, c, acl)
  }

  /** An existing child container is handed back after one fetch, and nothing is written. */
  lemma EnsureInContainerFinds(srv: Server, s: PodState, p: Ref, name: string, acl: Option<AclSettings>)
    requires Consistent(s) && DocumentPart(ChildRef(p, name)) in s.docs
    ensures EnsureInContainerSpec(srv, s, Ok(Some(p)), name, acl)
         == Out(Ok(Some(ChildRef(p, name))), s.(log := s.log + [Fetched(DocumentPart(ChildRef(p, name)))]))
  {
  }

  /** A missing child container goes through the workaround, after the fetch that missed it. */
  lemma EnsureInContainerCreates(srv: Server, s: PodState, p: Ref, name: string, acl: Option<AclSettings>)
    requires Consistent(s) && DocumentPart(ChildRef(p, name)) !in s.docs
    ensures var c := ChildRef(p, name);
      EnsureInContainerSpec(srv, s, Ok(Some(p)), name, acl)
         == CreateContainer(srv, s.(log := s.log + [Fetched(DocumentPart(c))]), c, acl)
  {
    var c := ChildRef(p, name);
    assert EnsureInContainerSpec(srv, s, Ok(Some(p)), name, acl) == ProbeOrCreate(srv, s, c, acl);
    ProbeMisses(srv, s, c, acl);
  }

  lemma ProbeMisses(srv: Server, s: PodState, c: Ref, acl: Option<AclSettings>)
    requires Consistent(s) && DocumentPart(c) !in s.docs
    ensures ProbeOrCreate(srv, s, c, acl) == CreateContainer(srv, s.(log := s.log + [Fetched(DocumentPart(c))]), c, acl)
  {
  }

  /** The dummy-document workaround: write `c.dummy`, delete it, fetch `c`, then the ACL step. */
  function CreateContainer(srv: Server, s: PodState, c: Ref, acl: Option<AclSettings>): (o: Out<Option<Ref>>)
    requires Consistent(s)
    ensures Consistent(o.state)
    ensures o.result.Ok? ==> o.result.value == Some(c)
    ensures !srv.createsLocally ==> o == Out(Error(SaveOfUndefined), s)
  {
    if !srv.createsLocally then Out(Error(SaveOfUndefined), s)
    else
      var m := Materialise(srv, s, c);
      if m.result.Error? then Out(Error(m.result.msg), m.state)
      else ContainerAclStep(srv, m.state, c, m.result.value, acl)
  }

  /** Save the empty dummy document `c.dummy`, delete it, and fetch `c`. */
  function Materialise(srv: Server, s: PodState, c: Ref): (o: Out<Doc>)
    requires Consistent(s)
    ensures Consistent(o.state)
    ensures o.state.log == s.log + [Saved(c + ".dummy")] + [Deleted(c + ".dummy")] + [Fetched(DocumentPart(c))]
  {
    var written := SaveStep(srv, s, EmptyDoc(c + ".dummy"), None);
    FetchStep(srv, DeleteState(written.state, c + ".dummy"), c)
  }

  /**
   * On a server that creates the container a document is written into, the workaround
   * creates a missing container: the write of the dummy makes it, the delete removes only the
   * dummy, so the second fetch finds the container.
   */
  lemma MaterialiseMakes(srv: Server, s: PodState, c: Ref)
    requires Consistent(s)
    requires c != [] && c[|c| - 1] == '/' && '#' !in c
    ensures var o := Materialise(srv, s, c);
      && o.result.Ok? && o.result.value.ref == c
      && c in o.state.docs && (c + ".dummy") !in o.state.docs
  {
    var written := SaveStep(srv, s, EmptyDoc(c + ".dummy"), None);
    ParentOfDummy(c);
    assert c in written.state.docs;
    assert c != c + ".dummy" by { assert |c| < |c + ".dummy"|; }
    var deleted := DeleteState(written.state, c + ".dummy");
    SplitAtHash(c);
    assert Materialise(srv, s, c) == FetchStep(srv, deleted, c);
  }

  /**
   * A missing container is there once `ensureInContainer` has run (whatever the ACL step
   * does); without ACL settings it settles with the container, and every failure is one of
   * the ACL messages.
   */
  lemma CreateContainerMakes(srv: Server, s: PodState, c: Ref, acl: Option<AclSettings>)
    requires Consistent(s) && srv.createsLocally
    requires c != [] && c[|c| - 1] == '/' && '#' !in c
    ensures var o := CreateContainer(srv, s, c, acl);
      && c in o.state.docs
      && (acl.Some? && !HasAclSettings(acl.value) ==> o.result == Ok(Some(c)))
      && (o.result.Error? ==> o.result.msg in {UndefinedAcl, NoContainerAclLocation, AclFetchFailed})
  {
    var m := Materialise(srv, s, c);
    MaterialiseMakes(srv, s, c);
    assert CreateContainer(srv, s, c, acl) == ContainerAclStep(srv, m.state, c, m.result.value, acl);
    ContainerAclKeeps(srv, m.state, c, m.result.value, acl);
  }

  /**
   * The last step of `ensureInContainer`: with ACL settings, the fetched container must name
   * an ACL location, and `configureAcl` writes the rules there. Settles with the container.
   */
  function ContainerAclStep(srv: Server, s: PodState, c: Ref, container: Doc, acl: Option<AclSettings>): (o: Out<Option<Ref>>)
    requires Consistent(s)
    ensures Consistent(o.state)
    ensures acl.None? ==> o == Out(Error(UndefinedAcl), s)
    ensures acl.Some? && !HasAclSettings(acl.value) ==> o == Out(Ok(Some(c)), s)
    ensures acl.Some? && HasAclSettings(acl.value) && container.acl.None? ==> o == Out(Error(NoContainerAclLocation), s)
    ensures acl.Some? && HasAclSettings(acl.value) && container.acl.Some? ==>
      var w := ConfigureAclSpec(srv, s, c, container.acl.value, acl.value);
      && o.state == w.state
      && (o.result.Ok? <==> w.result.Ok?)
      && (w.result.Error? ==> o.result == Error(w.result.msg))
    ensures o.result.Ok? ==> o.result.value == Some(c)
  {
    if acl.None? then Out(Error(UndefinedAcl), s)
    else if !HasAclSettings(acl.value) then Out(Ok(Some(c)), s)
    else if container.acl.None? then Out(Error(NoContainerAclLocation), s)
    else
      var w := ConfigureAclSpec(srv, s, c, container.acl.value, acl.value);
      if w.result.Ok? then Out(Ok(Some(c)), w.state) else Out(Error(w.result.msg), w.state)
  }

  /** The ACL step deletes nothing, and fails only with its own three messages. */
  lemma ContainerAclKeeps(srv: Server, s: PodState, c: Ref, container: Doc, acl: Option<AclSettings>)
    requires Consistent(s)
    ensures var o := ContainerAclStep(srv, s, c, container, acl);
      && (forall k | k in s.docs :: k in o.state.docs)
      && (o.result.Error? ==> o.result.msg in {UndefinedAcl, NoContainerAclLocation, AclFetchFailed})
  {
    if acl.Some? && HasAclSettings(acl.value) && container.acl.Some? {
      var a := container.acl.value;
      ConfigureAclFails(srv, s, c, a, acl.value);
      var f := FetchStep(srv, s, a);
      var aclDoc := AclDocument(srv, f, a);
      if aclDoc.Some? {
        assert ConfigureAclSpec(srv, s, c, a, acl.value) == SaveStep(srv, f.state, ConfigureRules(aclDoc.value, c, acl.value), None);
      }
    }
  }

  /** `ensureInContainer` once its parent container has settled. */
  method EnsureInContainer(pod: Pod, parent: Result<Option<Ref>>, name: string, acl: Option<AclSettings>)
    returns (r: Result<Option<Ref>>)
    requires pod.Valid()
    modifies pod
    ensures pod.Valid()
    ensures Out(r, pod.State()) == EnsureInContainerSpec(pod.server, old(pod.State()), parent, name, acl)
  {
    if parent.Error? {
      return Error(parent.msg);
    }
    if parent.value.None? {
      return Ok(None);
    }
    var c := DropTrailingSlash(parent.value.value) + "/" + DropTrailingSlash(DropLeadingSlash(name)) + "/";
    var probe := pod.Fetch(c);
    if probe.Ok? {
      return Ok(Some(c));
    }
    r := Create(pod, c, acl);
  }

  /** The dummy-document workaround and the ACL step. */
  method Create(pod: Pod, c: Ref, acl: Option<AclSettings>) returns (r: Result<Option<Ref>>)
    requires pod.Valid()
    modifies pod
    ensures pod.Valid()
    ensures Out(r, pod.State()) == CreateContainer(pod.server, old(pod.State()), c, acl)
  {
    var dummy := CreateDocument(pod.server, c + ".dummy");
    if dummy.None? {
      return Error(SaveOfUndefined);
    }
    var _ := pod.Save(dummy.value, None);
    pod.Delete(c + ".dummy");
    var refetch := pod.Fetch(c);
    if refetch.Error? {
      return Error(refetch.msg);
    }
    r := ConfigureContainerAcl(pod, c, refetch.value, acl);
  }

  /** `hasAclSettings`, the ACL location check and `configureAcl`. */
  method ConfigureContainerAcl(pod: Pod, c: Ref, container: Doc, acl: Option<AclSettings>) returns (r: Result<Option<Ref>>)
    requires pod.Valid()
    modifies pod
    ensures pod.Valid()
    ensures Out(r, pod.State()) == ContainerAclStep(pod.server, old(pod.State()), c, container, acl)
  {
    if acl.None? {
      return Error(UndefinedAcl);
    }
    if !HasAclSettings(acl.value) {
      return Ok(Some(c));
    }
    if container.acl.None? {
      return Error(NoContainerAclLocation);
    }
    var w := ConfigureAcl(pod, c, container.acl.value, acl.value);
    r := if w.Ok? then Ok(Some(c)) else Error(w.msg);
  }
}
