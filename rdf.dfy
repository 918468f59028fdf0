/**
 * The RDF document store the resolvers work on, reduced to what the resolvers use:
 * documents holding subjects, subjects holding (predicate, object) statements, and the
 * tripledoc operations on them (getSubject, getRef, findSubject(s), addSubject, addRef,
 * setRef). The library itself is not part of this model; these definitions stand in for it.
 */
module Rdf {
  import opened Wrappers

  /** An IRI. */
  type Ref = string

  /** One statement `subject predicate object` minus its subject. */
  datatype Pair = Pair(pred: Ref, obj: Ref)

  /**
   * A document: its IRI, the identifiers of its subjects in insertion order, the statements
   * of each subject in insertion order, whether it is known to exist on the Pod
   * (tripledoc's `isSavedToPod`) and the ACL location the server reported (`getAclRef`).
   */
  datatype RawDoc = RawDoc(ref: Ref, order: seq<Ref>, props: map<Ref, seq<Pair>>, saved: bool, acl: Option<Ref>)

  /** Every subject is listed exactly once in `order`, and `order` lists exactly the subjects. */
  predicate WellFormed(d: RawDoc) {
    && (forall i, j | 0 <= i < j < |d.order| :: d.order[i] != d.order[j])
    && (forall i | 0 <= i < |d.order| :: d.order[i] in d.props)
    && (forall s | s in d.props :: s in d.order)
  }

  type Doc = d: RawDoc | WellFormed(d) witness RawDoc("", [], map[], false, None)

  /** A new local document (tripledoc's `createDocument`): no subjects, not on the Pod. */
  function EmptyDoc(ref: Ref): Doc {
    RawDoc(ref, [], map[], false, None)
  }

  /** A subject handle: the document it was read from and its IRI. */
  datatype Subject = Subject(doc: Doc, id: Ref)

  /** The objects of the statements with predicate `p`, in order. */
  function ObjectsOf(ps: seq<Pair>, p: Ref): (os: seq<Ref>)
    ensures forall o :: o in os <==> Pair(p, o) in ps
    ensures |os| <= |ps|
  {
    if ps == [] then []
    else ObjectsOf(ps[..|ps| - 1], p) + (if ps[|ps| - 1].pred == p then [ps[|ps| - 1].obj] else [])
  }

  /** The statements whose predicate is not `p`, in order. */
  function Without(ps: seq<Pair>, p: Ref): (qs: seq<Pair>)
    ensures forall x :: x in qs <==> x in ps && x.pred != p
  {
    if ps == [] then []
    else Without(ps[..|ps| - 1], p) + (if ps[|ps| - 1].pred != p then [ps[|ps| - 1]] else [])
  }

  lemma {:induction false} ObjectsOfAppend(ps: seq<Pair>, x: Pair, p: Ref)
    ensures ObjectsOf(ps + [x], p) == ObjectsOf(ps, p) + (if x.pred == p then [x.obj] else [])
  {
    assert (ps + [x])[..|ps + [x]| - 1] == ps;
  }

  lemma {:induction false} ObjectsOfWithout(ps: seq<Pair>, q: Ref, p: Ref)
    ensures ObjectsOf(Without(ps, q), p) == if p == q then [] else ObjectsOf(ps, p)
  {
    if ps != [] {
      var init, last := ps[..|ps| - 1], ps[|ps| - 1];
      ObjectsOfWithout(init, q, p);
      assert ps == init + [last];
      ObjectsOfAppend(init, last, p);
      if last.pred != q {
        assert Without(ps, q) == Without(init, q) + [last];
        ObjectsOfAppend(Without(init, q), last, p);
      } else {
        assert Without(ps, q) == Without(init, q);
      }
    }
  }

  /** The objects of `p` on subject `s`; empty when `s` is not in the document. */
  function Values(d: Doc, s: Ref, p: Ref): seq<Ref> {
    if s in d.props then ObjectsOf(d.props[s], p) else []
  }

  /** tripledoc's `getRef`: the first object of `p` on `s`, or null. */
  function GetRef(d: Doc, s: Ref, p: Ref): (r: Option<Ref>)
    ensures r.None? <==> Values(d, s, p) == []
    ensures r.Some? ==> r.value in Values(d, s, p)
  {
    var vs := Values(d, s, p);
    if vs == [] then None else Some(vs[0])
  }

  /** tripledoc's `getSubject`, with null standing for a subject the document does not hold. */
  function GetSubject(d: Doc, id: Ref): (r: Option<Subject>)
    ensures r.Some? <==> id in d.order
    ensures r.Some? ==> r.value == Subject(d, id)
  {
    if id in d.props then Some(Subject(d, id)) else None
  }

  /** Registers `id` as a subject of `d` (no statements yet); a subject already there is kept. */
  function AddSubject(d: Doc, id: Ref): (r: Doc)
    ensures r.ref == d.ref && r.saved == d.saved && r.acl == d.acl
    ensures r.order == if id in d.props then d.order else d.order + [id]
    ensures id in r.props && (id !in d.props ==> r.props[id] == [])
    ensures forall s :: s in d.props ==> s in r.props && r.props[s] == d.props[s]
  {
    if id in d.props then d
    else
      var r: RawDoc := d.(order := d.order + [id], props := d.props[id := []]);
      assert id !in d.order;
      r
  }

  /** tripledoc's `addRef`: adds the statement `s p o` unless the document already holds it. */
  function AddRef(d: Doc, s: Ref, p: Ref, o: Ref): (r: Doc)
    ensures r.ref == d.ref && r.saved == d.saved && r.acl == d.acl
    ensures r.order == AddSubject(d, s).order
  {
    var d1 := AddSubject(d, s);
    if Pair(p, o) in d1.props[s] then d1
    else d1.(props := d1.props[s := d1.props[s] + [Pair(p, o)]])
  }

  /** tripledoc's `setRef`: removes every object of `p` on `s`, then adds `s p o`. */
  function SetRef(d: Doc, s: Ref, p: Ref, o: Ref): (r: Doc)
    ensures r.ref == d.ref && r.saved == d.saved && r.acl == d.acl
    ensures r.order == AddSubject(d, s).order
  {
    var d1 := AddSubject(d, s);
    d1.(props := d1.props[s := Without(d1.props[s], p) + [Pair(p, o)]])
  }

  lemma ValuesAddSubject(d: Doc, id: Ref, s: Ref, p: Ref)
    ensures Values(AddSubject(d, id), s, p) == Values(d, s, p)
  {
  }

  /** Adding a statement appends its object to that predicate's objects and touches nothing else. */
  lemma ValuesAddRef(d: Doc, s: Ref, p: Ref, o: Ref, s': Ref, p': Ref)
    ensures Values(AddRef(d, s, p, o), s', p') ==
      if s' == s && p' == p && o !in Values(d, s, p) then Values(d, s, p) + [o] else Values(d, s', p')
  {
    if s' == s {
      ValuesAddRefSame(d, s, p, o, p');
    }
  }

  lemma ValuesAddRefSame(d: Doc, s: Ref, p: Ref, o: Ref, p': Ref)
    ensures Values(AddRef(d, s, p, o), s, p') ==
      if p' == p && o !in Values(d, s, p) then Values(d, s, p) + [o] else Values(d, s, p')
  {
    var d1 := AddSubject(d, s);
    var ps := d1.props[s];
    ValuesAddSubject(d, s, s, p');
    ValuesAddSubject(d, s, s, p);
    if Pair(p, o) !in ps {
      ObjectsOfAppend(ps, Pair(p, o), p');
    }
  }

  /** Setting a statement leaves exactly one object for that predicate and touches nothing else. */
  lemma ValuesSetRef(d: Doc, s: Ref, p: Ref, o: Ref, s': Ref, p': Ref)
    ensures Values(SetRef(d, s, p, o), s', p') == if s' == s && p' == p then [o] else Values(d, s', p')
  {
    var d1 := AddSubject(d, s);
    ValuesAddSubject(d, s, s', p');
    if s' == s {
      ObjectsOfAppend(Without(d1.props[s], p), Pair(p, o), p');
      ObjectsOfWithout(d1.props[s], p, p');
    }
  }

  /** The longest IRI in `ids`. */
  function MaxLen(ids: seq<Ref>): (n: nat)
    ensures forall x :: x in ids ==> |x| <= n
  {
    if ids == [] then 0
    else
      var m := MaxLen(ids[1..]);
      assert forall x :: x in ids ==> x == ids[0] || x in ids[1..];
      if |ids[0]| > m then |ids[0]| else m
  }

  function Repeat(c: char, n: nat): (s: string)
    ensures |s| == n
  {
    if n == 0 then "" else [c] + Repeat(c, n - 1)
  }

  /**
   * The identifier `addSubject()` gives a new subject. tripledoc draws a random one; the model
   * takes one longer than every subject IRI of the document, so it is never already in use.
   */
  function FreshId(d: Doc): (id: Ref)
    ensures id !in d.props && id !in d.order && id != d.ref
  {
    d.ref + "#" + Repeat('n', MaxLen(d.order))
  }

  /** The subjects among `ids` that hold `p o`, in the order of `ids`. */
  function SubjectsWith(d: Doc, ids: seq<Ref>, p: Ref, o: Ref): (r: seq<Ref>)
    ensures forall s :: s in r <==> s in ids && o in Values(d, s, p)
  {
    if ids == [] then []
    else
      assert forall s :: s in ids <==> s == ids[0] || s in ids[1..];
      (if o in Values(d, ids[0], p) then [ids[0]] else []) + SubjectsWith(d, ids[1..], p, o)
  }

  /** tripledoc's `findSubjects(p, o)`: every subject holding `p o`, in document order. */
  function FindSubjects(d: Doc, p: Ref, o: Ref): seq<Ref> {
    SubjectsWith(d, d.order, p, o)
  }

  /** tripledoc's `findSubject(p, o)`: the first subject holding `p o`, or null. */
  function FindSubject(d: Doc, p: Ref, o: Ref): (r: Option<Ref>)
    ensures r.Some? ==> r.value in d.order && o in Values(d, r.value, p)
    ensures r.None? ==> forall s :: s in d.order ==> o !in Values(d, s, p)
  {
    var all := FindSubjects(d, p, o);
    if all == [] then None else Some(all[0])
  }

  /** The part of an IRI before its first `#`: the document a subject IRI lives in. */
  function DocumentPart(r: Ref): Ref {
    if r == [] then []
    else if r[0] == '#' then []
    else [r[0]] + DocumentPart(r[1..])
  }

  /** The fragment of an IRI without its `#` (`new URL(r).hash.substring(1)`); empty when there is none. */
  function Fragment(r: Ref): string {
    if r == [] then []
    else if r[0] == '#' then r[1..]
    else Fragment(r[1..])
  }

  /** An IRI splits at its first `#` into its document part and its fragment. */
  lemma {:induction false} SplitAtHash(r: Ref)
    ensures '#' !in DocumentPart(r)
    ensures '#' in r ==> r == DocumentPart(r) + "#" + Fragment(r)
    ensures '#' !in r ==> r == DocumentPart(r) && Fragment(r) == ""
  {
    if r != [] && r[0] != '#' {
      SplitAtHash(r[1..]);
      assert r == [r[0]] + r[1..];
    }
  }

  /** The IRI `addSubject({identifier})` gives a subject of the document at `docRef`. */
  function SubjectIri(docRef: Ref, identifier: string): Ref {
    docRef + "#" + identifier
  }

  /** A subject IRI minted in a document names that document and gives back its identifier. */
  lemma {:induction false} SubjectIriParts(docRef: Ref, identifier: string)
    requires '#' !in docRef
    ensures DocumentPart(SubjectIri(docRef, identifier)) == docRef
    ensures Fragment(SubjectIri(docRef, identifier)) == identifier
  {
    if docRef != [] {
      assert SubjectIri(docRef, identifier)[1..] == SubjectIri(docRef[1..], identifier);
      SubjectIriParts(docRef[1..], identifier);
    }
  }
}

/** The vocabulary terms the resolvers write; distinct IRIs of the RDF, ACL, FOAF and Dublin Core vocabularies. */
module Vocab {
  const RdfType := "http://www.w3.org/1999/02/22-rdf-syntax-ns#type"
  const AclAuthorization := "http://www.w3.org/ns/auth/acl#Authorization"
  const AclAccessTo := "http://www.w3.org/ns/auth/acl#accessTo"
  const AclAgent := "http://www.w3.org/ns/auth/acl#agent"
  const AclAgentClass := "http://www.w3.org/ns/auth/acl#agentClass"
  const AclOrigin := "http://www.w3.org/ns/auth/acl#origin"
  const AclMode := "http://www.w3.org/ns/auth/acl#mode"
  const AclRead := "http://www.w3.org/ns/auth/acl#Read"
  const AclAppend := "http://www.w3.org/ns/auth/acl#Append"
  const AclWrite := "http://www.w3.org/ns/auth/acl#Write"
  const AclControl := "http://www.w3.org/ns/auth/acl#Control"
  const FoafAgent := "http://xmlns.com/foaf/0.1/Agent"
  const DctermsReferences := "http://purl.org/dc/terms/references"
}
