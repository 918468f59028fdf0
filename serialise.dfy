/**
 * `serialise`: a descriptor tree as a plain object. Every property of a descriptor is
 * copied, except that a nested handle is replaced by its own serialisation. The functions
 * read no mutable field, so a handle's slot never shows up in, nor changes, the result.
 */
module Serialise {
  import opened Wrappers
  import opened Rdf
  import opened AclModel
  import opened Descriptors

  /** A plain JSON-like value. */
  datatype Plain =
    | Text(text: string)
    | RefList(pairs: seq<Pair>)
    | LocatorValue(locator: Locator)
    | SettingsValue(settings: AclSettings)
    | Object(fields: map<string, Plain>)

  /** The properties of a descriptor object. */
  function SubjectKeys(d: SubjectDescriptor): set<string> {
    match d
    case SubjectFoundAt(_) => {"type", "reference"}
    case SubjectFoundOn(_, _) => {"type", "subject", "predicate"}
    case SubjectEnsuredOn(_, _) => {"type", "subject", "predicate"}
    case SubjectFoundIn(_, _) => {"type", "document", "locator"}
    case SubjectEnsuredIn(_, _) => {"type", "document", "locator"}
    case SubjectOther(_, extra) => {"type"} + extra.Keys
  }

  function DocumentKeys(d: DocumentDescriptor): set<string> {
    match d
    case DocByRef(_) => {"type", "reference"}
    case DocIsAclFor(_) => {"type", "document"}
    case DocIsFoundOn(_, _) => {"type", "subject", "predicate"}
    case DocIsEnsuredOn(_, _, _, acl) =>
      {"type", "subject", "predicate", "fallbackContainer"} + (if acl.Some? then {"acl"} else {})
    case DocOther(_, extra) => {"type"} + extra.Keys
  }

  function ContainerKeys(d: ContainerDescriptor): set<string> {
    match d
    case ContainerFoundAt(_) => {"type", "reference"}
    case ContainerFoundOn(_, _) => {"type", "subject", "predicate"}
    case ContainerContainedIn(_, _, acl) => {"type", "container", "name"} + (if acl.Some? then {"acl"} else {})
    case ContainerOther(_, extra) => {"type"} + extra.Keys
  }

  function SubjectListKeys(d: SubjectListDescriptor): set<string> {
    match d
    case ListFoundIn(_, _) => {"type", "document", "references"}
    case ListFoundOn(_, _) => {"type", "subject", "predicate"}
    case ListOther(_, extra) => {"type"} + extra.Keys
  }

  /** The properties of a descriptor whose tag is not a known one: all copied, `type` last. */
  function OtherObject(tag: string, extra: map<string, string>): (p: Plain)
    ensures p.Object? && p.fields.Keys == {"type"} + extra.Keys && p.fields["type"] == Text(tag)
  {
    Object((map k | k in extra :: Text(extra[k]))["type" := Text(tag)])
  }

  function SerialiseSubject(h: VirtualSubject): (p: Plain)
    requires h.Ok()
    decreases h.depth
    ensures p.Object? && p.fields.Keys == SubjectKeys(h.descriptor)
    ensures p.fields["type"] == Text(SubjectTag(h.descriptor))
  {
    match h.descriptor
    case SubjectFoundAt(r) => Object(map["type" := Text("IsFoundAt"), "reference" := Text(r)])
    case SubjectFoundOn(s, pr) =>
      Object(map["type" := Text("IsFoundOn"), "subject" := SerialiseSubject(s), "predicate" := Text(pr)])
    case SubjectEnsuredOn(s, pr) =>
      Object(map["type" := Text("IsEnsuredOn"), "subject" := SerialiseSubject(s), "predicate" := Text(pr)])
    case SubjectFoundIn(doc, l) =>
      Object(map["type" := Text("IsFoundIn"), "document" := SerialiseDocument(doc), "locator" := LocatorValue(l)])
    case SubjectEnsuredIn(doc, l) =>
      Object(map["type" := Text("IsEnsuredIn"), "document" := SerialiseDocument(doc), "locator" := LocatorValue(l)])
    case SubjectOther(t, extra) => OtherObject(t, extra)
  }

  function SerialiseDocument(h: VirtualDocument): (p: Plain)
    requires h.Ok()
    decreases h.depth
    ensures p.Object? && p.fields.Keys == DocumentKeys(h.descriptor)
    ensures p.fields["type"] == Text(DocumentTag(h.descriptor))
  {
    match h.descriptor
    case DocByRef(r) => Object(map["type" := Text("ByRef"), "reference" := Text(r)])
    case DocIsAclFor(doc) => Object(map["type" := Text("IsAclFor"), "document" := SerialiseDocument(doc)])
    case DocIsFoundOn(s, pr) =>
      Object(map["type" := Text("IsFoundOn"), "subject" := SerialiseSubject(s), "predicate" := Text(pr)])
    case DocIsEnsuredOn(s, pr, con, acl) => EnsuredOnObject(SerialiseSubject(s), pr, SerialiseContainer(con), acl)
    case DocOther(t, extra) => OtherObject(t, extra)
  }

  /** The object of an `isEnsuredOn` document, from its serialised parts; `acl` only when set. */
  function EnsuredOnObject(subject: Plain, pr: Ref, con: Plain, acl: Option<AclSettings>): (p: Plain)
    ensures p.Object? && p.fields.Keys == {"type", "subject", "predicate", "fallbackContainer"} + (if acl.Some? then {"acl"} else {})
    ensures p.fields["type"] == Text("IsEnsuredOn")
  {
    var fields := map["type" := Text("IsEnsuredOn"), "subject" := subject, "predicate" := Text(pr), "fallbackContainer" := con];
    Object(if acl.Some? then fields["acl" := SettingsValue(acl.value)] else fields)
  }

  /** The object of an `isContainedIn` container, from its serialised parts; `acl` only when set. */
  function ContainedInObject(con: Plain, name: string, acl: Option<AclSettings>): (p: Plain)
    ensures p.Object? && p.fields.Keys == {"type", "container", "name"} + (if acl.Some? then {"acl"} else {})
    ensures p.fields["type"] == Text("IsContainedIn")
  {
    var fields := map["type" := Text("IsContainedIn"), "container" := con, "name" := Text(name)];
    Object(if acl.Some? then fields["acl" := SettingsValue(acl.value)] else fields)
  }

  lemma EnsuredOnObjectExact(s1: Plain, p1: Ref, c1: Plain, a1: Option<AclSettings>, s2: Plain, p2: Ref, c2: Plain, a2: Option<AclSettings>)
    ensures EnsuredOnObject(s1, p1, c1, a1) == EnsuredOnObject(s2, p2, c2, a2) <==> s1 == s2 && p1 == p2 && c1 == c2 && a1 == a2
  {
    var f, g := EnsuredOnObject(s1, p1, c1, a1).fields, EnsuredOnObject(s2, p2, c2, a2).fields;
    if f == g {
      assert f["subject"] == g["subject"] && f["fallbackContainer"] == g["fallbackContainer"];
      assert Text(p1) == f["predicate"] == g["predicate"] == Text(p2);
      assert a1.Some? <==> "acl" in f;
      if a1.Some? {
        assert f["acl"] == g["acl"];
      }
    }
  }

  lemma ContainedInObjectExact(c1: Plain, n1: string, a1: Option<AclSettings>, c2: Plain, n2: string, a2: Option<AclSettings>)
    ensures ContainedInObject(c1, n1, a1) == ContainedInObject(c2, n2, a2) <==> c1 == c2 && n1 == n2 && a1 == a2
  {
    var f, g := ContainedInObject(c1, n1, a1).fields, ContainedInObject(c2, n2, a2).fields;
    if f == g {
      assert f["container"] == g["container"];
      assert Text(n1) == f["name"] == g["name"] == Text(n2);
      assert a1.Some? <==> "acl" in f;
      if a1.Some? {
        assert f["acl"] == g["acl"];
      }
    }
  }

  function SerialiseContainer(h: VirtualContainer): (p: Plain)
    requires h.Ok()
    decreases h.depth
    ensures p.Object? && p.fields.Keys == ContainerKeys(h.descriptor)
    ensures p.fields["type"] == Text(ContainerTag(h.descriptor))
  {
    match h.descriptor
    case ContainerFoundAt(r) => Object(map["type" := Text("IsFoundAt"), "reference" := Text(r)])
    case ContainerFoundOn(s, pr) =>
      Object(map["type" := Text("IsFoundOn"), "subject" := SerialiseSubject(s), "predicate" := Text(pr)])
    case ContainerContainedIn(con, name, acl) => ContainedInObject(SerialiseContainer(con), name, acl)
    case ContainerOther(t, extra) => OtherObject(t, extra)
  }

  function SerialiseSubjectList(h: VirtualSubjectList): (p: Plain)
    requires h.Ok()
    ensures p.Object? && p.fields.Keys == SubjectListKeys(h.descriptor)
    ensures p.fields["type"] == Text(SubjectListTag(h.descriptor))
  {
    match h.descriptor
    case ListFoundIn(doc, refs) =>
      Object(map["type" := Text("IsFoundIn"), "document" := SerialiseDocument(doc), "references" := RefList(refs)])
    case ListFoundOn(s, pr) =>
      Object(map["type" := Text("IsFoundOn"), "subject" := SerialiseSubject(s), "predicate" := Text(pr)])
    case ListOther(t, extra) => OtherObject(t, extra)
  }

  /** Two handles describe the same tree: equal descriptors, up to which handle objects they nest. */
  ghost predicate SameSubject(a: VirtualSubject, b: VirtualSubject)
    requires a.Ok() && b.Ok()
    decreases a.depth
  {
    match a.descriptor
    case SubjectFoundAt(r) => b.descriptor == SubjectFoundAt(r)
    case SubjectFoundOn(s, pr) =>
      b.descriptor.SubjectFoundOn? && b.descriptor.pred == pr && SameSubject(s, b.descriptor.subject)
    case SubjectEnsuredOn(s, pr) =>
      b.descriptor.SubjectEnsuredOn? && b.descriptor.pred == pr && SameSubject(s, b.descriptor.subject)
    case SubjectFoundIn(doc, l) =>
      b.descriptor.SubjectFoundIn? && b.descriptor.locator == l && SameDocument(doc, b.descriptor.document)
    case SubjectEnsuredIn(doc, l) =>
      b.descriptor.SubjectEnsuredIn? && b.descriptor.locator == l && SameDocument(doc, b.descriptor.document)
    case SubjectOther(t, x) => b.descriptor.SubjectOther? && b.descriptor.tag == t && SameExtra(x, b.descriptor.extra)
  }

  ghost predicate SameDocument(a: VirtualDocument, b: VirtualDocument)
    requires a.Ok() && b.Ok()
    decreases a.depth
  {
    match a.descriptor
    case DocByRef(r) => b.descriptor == DocByRef(r)
    case DocIsAclFor(doc) => b.descriptor.DocIsAclFor? && SameDocument(doc, b.descriptor.document)
    case DocIsFoundOn(s, pr) =>
      b.descriptor.DocIsFoundOn? && b.descriptor.pred == pr && SameSubject(s, b.descriptor.subject)
    case DocIsEnsuredOn(s, pr, con, acl) =>
      b.descriptor.DocIsEnsuredOn? && b.descriptor.pred == pr && b.descriptor.acl == acl
      && SameSubject(s, b.descriptor.subject) && SameContainer(con, b.descriptor.fallbackContainer)
    case DocOther(t, x) => b.descriptor.DocOther? && b.descriptor.tag == t && SameExtra(x, b.descriptor.extra)
  }

  ghost predicate SameContainer(a: VirtualContainer, b: VirtualContainer)
    requires a.Ok() && b.Ok()
    decreases a.depth
  {
    match a.descriptor
    case ContainerFoundAt(r) => b.descriptor == ContainerFoundAt(r)
    case ContainerFoundOn(s, pr) =>
      b.descriptor.ContainerFoundOn? && b.descriptor.pred == pr && SameSubject(s, b.descriptor.subject)
    case ContainerContainedIn(con, name, acl) =>
      b.descriptor.ContainerContainedIn? && b.descriptor.name == name && b.descriptor.acl == acl
      && SameContainer(con, b.descriptor.container)
    case ContainerOther(t, x) => b.descriptor.ContainerOther? && b.descriptor.tag == t && SameExtra(x, b.descriptor.extra)
  }

  /** The extra properties agree, apart from a `type` that the tag overrides. */
  ghost predicate SameExtra(x: map<string, string>, y: map<string, string>) {
    x - {"type"} == y - {"type"}
  }

  lemma OtherObjectExact(t: string, x: map<string, string>, u: string, y: map<string, string>)
    ensures OtherObject(t, x) == OtherObject(u, y) <==> t == u && SameExtra(x, y)
  {
    var f, g := OtherObject(t, x).fields, OtherObject(u, y).fields;
    if f == g {
      assert Text(t) == f["type"] == g["type"] == Text(u);
      forall k | k != "type"
        ensures (k in x <==> k in y) && (k in x ==> x[k] == y[k])
      {
        assert k in x <==> k in f;
        assert k in y <==> k in g;
        if k in x {
          assert f[k] == Text(x[k]);
          assert g[k] == Text(y[k]);
        }
      }
      assert x - {"type"} == y - {"type"};
    }
    if t == u && SameExtra(x, y) {
      forall k | k in f
        ensures k in g && f[k] == g[k]
      {
        if k != "type" {
          assert k in x - {"type"};
        }
      }
      forall k | k in g
        ensures k in f
      {
        if k != "type" {
          assert k in y - {"type"};
        }
      }
      assert f == g;
    }
  }

  /**
   * Serialisation loses nothing but object identity: two Subject handles serialise alike
   * exactly when they describe the same tree.
   */
  lemma {:induction false} SerialiseSubjectExact(a: VirtualSubject, b: VirtualSubject)
    requires a.Ok() && b.Ok()
    decreases a.depth
    ensures SerialiseSubject(a) == SerialiseSubject(b) <==> SameSubject(a, b)
  {
    match a.descriptor
    case SubjectFoundAt(_) =>
    case SubjectFoundOn(s, _) =>
      if b.descriptor.SubjectFoundOn? { SerialiseSubjectExact(s, b.descriptor.subject); }
    case SubjectEnsuredOn(s, _) =>
      if b.descriptor.SubjectEnsuredOn? { SerialiseSubjectExact(s, b.descriptor.subject); }
    case SubjectFoundIn(doc, _) =>
      if b.descriptor.SubjectFoundIn? { SerialiseDocumentExact(doc, b.descriptor.document); }
    case SubjectEnsuredIn(doc, _) =>
      if b.descriptor.SubjectEnsuredIn? { SerialiseDocumentExact(doc, b.descriptor.document); }
    case SubjectOther(t, x) =>
      if b.descriptor.SubjectOther? { OtherObjectExact(t, x, b.descriptor.tag, b.descriptor.extra); }
  }

  lemma {:induction false} SerialiseDocumentExact(a: VirtualDocument, b: VirtualDocument)
    requires a.Ok() && b.Ok()
    decreases a.depth
    ensures SerialiseDocument(a) == SerialiseDocument(b) <==> SameDocument(a, b)
  {
    match a.descriptor
    case DocByRef(_) =>
    case DocIsAclFor(doc) =>
      if b.descriptor.DocIsAclFor? { SerialiseDocumentExact(doc, b.descriptor.document); }
    case DocIsFoundOn(s, _) =>
      if b.descriptor.DocIsFoundOn? { SerialiseSubjectExact(s, b.descriptor.subject); }
    case DocIsEnsuredOn(s, _, con, acl) =>
      if b.descriptor.DocIsEnsuredOn? {
        SerialiseSubjectExact(s, b.descriptor.subject);
        SerialiseContainerExact(con, b.descriptor.fallbackContainer);
        EnsuredOnObjectExact(SerialiseSubject(s), a.descriptor.pred, SerialiseContainer(con), acl,
          SerialiseSubject(b.descriptor.subject), b.descriptor.pred, SerialiseContainer(b.descriptor.fallbackContainer), b.descriptor.acl);
      }
    case DocOther(t, x) =>
      if b.descriptor.DocOther? { OtherObjectExact(t, x, b.descriptor.tag, b.descriptor.extra); }
  }

  lemma {:induction false} SerialiseContainerExact(a: VirtualContainer, b: VirtualContainer)
    requires a.Ok() && b.Ok()
    decreases a.depth
    ensures SerialiseContainer(a) == SerialiseContainer(b) <==> SameContainer(a, b)
  {
    match a.descriptor
    case ContainerFoundAt(_) =>
    case ContainerFoundOn(s, _) =>
      if b.descriptor.ContainerFoundOn? { SerialiseSubjectExact(s, b.descriptor.subject); }
    case ContainerContainedIn(con, _, acl) =>
      if b.descriptor.ContainerContainedIn? {
        SerialiseContainerExact(con, b.descriptor.container);
        ContainedInObjectExact(SerialiseContainer(con), a.descriptor.name, acl,
          SerialiseContainer(b.descriptor.container), b.descriptor.name, b.descriptor.acl);
      }
    case ContainerOther(t, x) =>
      if b.descriptor.ContainerOther? { OtherObjectExact(t, x, b.descriptor.tag, b.descriptor.extra); }
  }

  /** The nested shape of the serialisation test: an `isEnsuredOn` document over two `IsFoundAt` handles. */
  lemma SerialiseNested(h: VirtualDocument, s: VirtualSubject, c: VirtualContainer, pr: Ref, r1: Ref, r2: Ref)
    requires h.Ok() && h.descriptor == DocIsEnsuredOn(s, pr, c, Some(NoAcl))
    requires s.descriptor == SubjectFoundAt(r1) && c.descriptor == ContainerFoundAt(r2)
    ensures SerialiseDocument(h) == Object(map[
      "acl" := SettingsValue(NoAcl),
      "fallbackContainer" := Object(map["reference" := Text(r2), "type" := Text("IsFoundAt")]),
      "predicate" := Text(pr),
      "subject" := Object(map["reference" := Text(r1), "type" := Text("IsFoundAt")]),
      "type" := Text("IsEnsuredOn")])
  {
    assert map["type" := Text("IsFoundAt"), "reference" := Text(r1)] == map["reference" := Text(r1), "type" := Text("IsFoundAt")];
    assert map["type" := Text("IsFoundAt"), "reference" := Text(r2)] == map["reference" := Text(r2), "type" := Text("IsFoundAt")];
    assert SerialiseSubject(s) == Object(map["reference" := Text(r1), "type" := Text("IsFoundAt")]);
    assert SerialiseContainer(c) == Object(map["reference" := Text(r2), "type" := Text("IsFoundAt")]);
  }
}
