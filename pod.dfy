/**
 * The Pod the resolvers talk to, seen through tripledoc and solid-auth-client: a map from
 * document IRIs to stored documents, a log of the requests sent to it, and the few choices
 * the server makes by itself (where a resource's ACL lives, the names of new documents).
 * Every step is given twice: as a function on a `PodState` value, which the specifications
 * of the resolvers compose, and as a method of the `Pod` object, which changes it in place.
 */
module PodStore {
  import opened Wrappers
  import opened Rdf

  /** A request that reached the Pod. */
  datatype Effect = Fetched(ref: Ref) | Saved(ref: Ref) | Deleted(ref: Ref)

  /**
   * What the collaborators decide without being asked: the ACL location the server
   * advertises for each resource (`getAclRef`), and whether `createDocument` hands back a
   * local document at all (the ACL code checks it for `undefined`).
   */
  datatype Server = Server(aclLocations: map<Ref, Ref>, createsLocally: bool)

  /** The stored documents, the requests so far, and a bound on the length of every stored IRI. */
  datatype PodState = PodState(docs: map<Ref, Doc>, log: seq<Effect>, longest: nat)

  /** How a step settled, and the Pod after it. */
  datatype Out<+T> = Out(result: Result<T>, state: PodState)

  /** Each document is stored under its own IRI, and `longest` exceeds every stored IRI's length. */
  ghost predicate Consistent(s: PodState) {
    forall r | r in s.docs :: s.docs[r].ref == r && |r| < s.longest
  }

  function AclRef(srv: Server, r: Ref): Option<Ref> {
    if r in srv.aclLocations then Some(srv.aclLocations[r]) else None
  }

  /** A document as a fetch or a save hands it back: known to be on the Pod, with its ACL location. */
  function View(srv: Server, d: Doc): (v: Doc)
    ensures v.saved && v.acl == AclRef(srv, d.ref)
    ensures v.ref == d.ref && v.order == d.order && v.props == d.props
  {
    d.(saved := true, acl := AclRef(srv, d.ref))
  }

  /** `fetchDocument(ref)`: the document that holds `ref`, or a rejection when there is none. */
  function FetchStep(srv: Server, s: PodState, ref: Ref): (o: Out<Doc>)
    ensures o.state == s.(log := s.log + [Fetched(DocumentPart(ref))])
    ensures Consistent(s) ==> Consistent(o.state)
    ensures o.result.Ok? <==> DocumentPart(ref) in s.docs
    ensures o.result.Ok? ==> o.result.value == View(srv, s.docs[DocumentPart(ref)])
  {
    var k := DocumentPart(ref);
    var r := if k in s.docs then Ok(View(srv, s.docs[k])) else Error(FetchFailed(ref));
    Out(r, s.(log := s.log + [Fetched(k)]))
  }

  /** `createDocument(ref)`: a local, unsaved, empty document, when the library provides one. */
  function CreateDocument(srv: Server, ref: Ref): (r: Option<Doc>)
    ensures r.Some? <==> srv.createsLocally
    ensures r.Some? ==> r.value == EmptyDoc(ref)
  {
    if srv.createsLocally then Some(EmptyDoc(ref)) else None
  }

  /** `base` with subject `id` holding exactly the statements `ps`. */
  function PutSubject(base: Doc, id: Ref, ps: seq<Pair>): (r: Doc)
    ensures r.ref == base.ref && id in r.order
    ensures forall x | x in base.order :: x in r.order
  {
    var b := AddSubject(base, id);
    b.(props := b.props[id := ps])
  }

  /** The stored document after saving the subjects `ids` of the local copy `d` over `base`. */
  function Merge(base: Doc, d: Doc, ids: seq<Ref>): (r: Doc)
    ensures r.ref == base.ref
  {
    if ids == [] then base
    else
      var m := Merge(base, d, ids[..|ids| - 1]);
      var id := ids[|ids| - 1];
      if id in d.props then PutSubject(m, id, d.props[id]) else m
  }

  /** A saved subject reads as in the local copy; every other subject as stored before. */
  lemma {:induction false} MergeValues(base: Doc, d: Doc, ids: seq<Ref>, x: Ref, p: Ref)
    ensures Values(Merge(base, d, ids), x, p) == if x in ids && x in d.props then Values(d, x, p) else Values(base, x, p)
    ensures x in ids && x in d.props ==> x in Merge(base, d, ids).order
  {
    if ids != [] {
      var init, id := ids[..|ids| - 1], ids[|ids| - 1];
      assert x in ids <==> x in init || x == id;
      MergeValues(base, d, init, x, p);
    }
  }

  /** What a save writes over: the stored document, or an empty one when there is none yet. */
  function Stored(docs: map<Ref, Doc>, ref: Ref): Doc {
    if ref in docs then docs[ref] else EmptyDoc(ref)
  }

  /** The longest prefix of `s` that ends in `/`. */
  function DirPrefix(s: string): (p: string)
    ensures |p| <= |s| && p == s[..|p|]
  {
    if s == [] then []
    else if s[|s| - 1] == '/' then s
    else DirPrefix(s[..|s| - 1])
  }

  /** The container a resource lives in: its IRI up to the last `/` before its final character. */
  function Parent(r: Ref): (p: Ref)
    ensures |p| < |r| || r == []
  {
    if r == [] then [] else DirPrefix(r[..|r| - 1])
  }

  lemma {:induction false} DirPrefixAppend(c: string, t: string)
    requires c != [] && c[|c| - 1] == '/' && '/' !in t
    ensures DirPrefix(c + t) == c
  {
    if t == [] {
      assert c + t == c;
    } else {
      assert (c + t)[..|c + t| - 1] == c + t[..|t| - 1];
      DirPrefixAppend(c, t[..|t| - 1]);
    }
  }

  /** Writing `c + ".dummy"` into a container `c` writes into `c` itself. */
  lemma ParentOfDummy(c: Ref)
    requires c != [] && c[|c| - 1] == '/'
    ensures Parent(c + ".dummy") == c
  {
    assert (c + ".dummy")[..|c + ".dummy"| - 1] == c + ".dumm";
    DirPrefixAppend(c, ".dumm");
  }

  /**
   * The stored documents after `save`: the whole local copy, or with `Some(ids)` only those
   * subjects over what was stored. As on a Solid server, a write into a container that does
   * not exist yet creates the container.
   */
  function Written(docs: map<Ref, Doc>, d: Doc, only: Option<seq<Ref>>): (r: map<Ref, Doc>)
    requires d.ref in docs ==> docs[d.ref].ref == d.ref
    ensures d.ref in r && r[d.ref].ref == d.ref
    ensures only.None? ==> r[d.ref] == d
    ensures only.Some? ==> r[d.ref] == Merge(Stored(docs, d.ref), d, only.value)
    ensures forall k | k in docs :: k in r
    ensures forall k | k in r && k != d.ref && k != Parent(d.ref) :: k in docs && r[k] == docs[k]
  {
    var base := Stored(docs, d.ref);
    var stored := if only.None? then d else Merge(base, d, only.value);
    var docs1 := docs[d.ref := stored];
    var parent := Parent(d.ref);
    if parent == [] || parent in docs1 then docs1 else docs1[parent := EmptyDoc(parent)]
  }

  function Max(a: nat, b: nat): nat {
    if a < b then b else a
  }

  /** The Pod after `doc.save(only)`. */
  function SaveState(s: PodState, d: Doc, only: Option<seq<Ref>>): (r: PodState)
    requires Consistent(s)
    ensures Consistent(r)
  {
    PodState(Written(s.docs, d, only), s.log + [Saved(d.ref)], Max(s.longest, |d.ref| + 1))
  }

  /** `doc.save(only)` as a step: the Pod after it, and the saved document it hands back. */
  function SaveStep(srv: Server, s: PodState, d: Doc, only: Option<seq<Ref>>): (o: Out<Doc>)
    requires Consistent(s)
    ensures o.state == SaveState(s, d, only) && Consistent(o.state)
    ensures o.state.log == s.log + [Saved(d.ref)]
    ensures o.result.Ok? && d.ref in o.state.docs && o.result.value.ref == d.ref
    ensures only.None? ==> o.result.value == View(srv, d)
    ensures only.Some? ==> o.result.value == View(srv, Merge(Stored(s.docs, d.ref), d, only.value))
  {
    var s2 := SaveState(s, d, only);
    Out(Ok(View(srv, s2.docs[d.ref])), s2)
  }

  /** The Pod after an HTTP DELETE of `ref`. */
  function DeleteState(s: PodState, ref: Ref): (r: PodState)
    ensures Consistent(s) ==> Consistent(r)
  {
    s.(docs := s.docs - {ref}, log := s.log + [Deleted(ref)])
  }

  /** The IRI the server gives the next document created in `container`. */
  function NewDocRef(s: PodState, container: Ref): Ref {
    container + Repeat('n', s.longest)
  }

  /** The Pod after `createDocumentInContainer(container)` reserved a name. */
  function CreateInState(s: PodState, container: Ref): (r: PodState)
    ensures r.docs == s.docs && r.log == s.log
    ensures Consistent(s) ==> Consistent(r)
  {
    s.(longest := |NewDocRef(s, container)| + 1)
  }

  /** A document created in a container never takes the name of a stored one. */
  lemma NewDocRefIsNew(s: PodState, container: Ref)
    requires Consistent(s)
    ensures NewDocRef(s, container) !in s.docs
    ensures Consistent(CreateInState(s, container))
  {
  }

  class Pod {
    var docs: map<Ref, Doc>
    var log: seq<Effect>
    var longest: nat
    const server: Server

    function State(): PodState
      reads this
    {
      PodState(docs, log, longest)
    }

    ghost predicate Valid()
      reads this
    {
      Consistent(State())
    }

    /** A Pod holding `docs0`, each stored under its own IRI, all of them shorter than `bound`. */
    constructor (docs0: map<Ref, Doc>, bound: nat, server: Server)
      requires forall r | r in docs0 :: docs0[r].ref == r && |r| < bound
      ensures Valid() && docs == docs0 && log == [] && this.server == server
    {
      docs := docs0;
      log := [];
      longest := bound;
      this.server := server;
    }

    /** `fetchDocument(ref)`. */
    method Fetch(ref: Ref) returns (r: Result<Doc>)
      modifies this`log
      ensures Out(r, State()) == FetchStep(server, old(State()), ref)
    {
      var k := DocumentPart(ref);
      if k in docs {
        r := Ok(View(server, docs[k]));
      } else {
        r := Error(FetchFailed(ref));
      }
      log := log + [Fetched(k)];
    }

    /** `doc.save()` (`only == None`) or `doc.save(subjects)`; hands back the saved document. */
    method Save(d: Doc, only: Option<seq<Ref>>) returns (saved: Doc)
      requires Valid()
      modifies this`docs, this`log, this`longest
      ensures Valid()
      ensures Out(Ok(saved), State()) == SaveStep(server, old(State()), d, only)
    {
      docs := Written(docs, d, only);
      log := log + [Saved(d.ref)];
      longest := Max(longest, |d.ref| + 1);
      saved := View(server, docs[d.ref]);
    }

    /** An HTTP DELETE of `ref`; its response is not looked at. */
    method Delete(ref: Ref)
      requires Valid()
      modifies this`docs, this`log
      ensures Valid()
      ensures State() == DeleteState(old(State()), ref)
    {
      docs := docs - {ref};
      log := log + [Deleted(ref)];
    }

    /** `createDocumentInContainer(container)`: a local document under a name the server has not used. */
    method CreateDocumentInContainer(container: Ref) returns (d: Doc)
      requires Valid()
      modifies this`longest
      ensures Valid()
      ensures d == EmptyDoc(NewDocRef(old(State()), container))
      ensures State() == CreateInState(old(State()), container)
    {
      NewDocRefIsNew(State(), container);
      var ref := NewDocRef(State(), container);
      d := EmptyDoc(ref);
      longest := |ref| + 1;
    }
  }
}
