/**
 * The branches of the Subject resolver (src/actors/subject.ts) once the handles they nest
 * have settled: each takes the nested result and the Pod, and gives the Subject (or null,
 * or a rejection) and the Pod afterwards. The steps that write are methods on the `Pod`.
 */
module SubjectSteps {
  import opened Wrappers
  import opened Rdf
  import opened Vocab
  import opened PodStore
  import opened Descriptors

  // Reading

  /** `fetchByRef`: the subject `reference` of the document that holds it. */
  function FoundAtSpec(srv: Server, s: PodState, reference: Ref): (o: Out<Option<Subject>>)
    ensures o.state == s.(log := s.log + [Fetched(DocumentPart(reference))])
    ensures Consistent(s) ==> Consistent(o.state)
    ensures o.result.Ok? <==> DocumentPart(reference) in s.docs
    ensures o.result.Ok? ==> (o.result.value.Some? <==> reference in s.docs[DocumentPart(reference)].order)
    ensures o.result.Ok? && o.result.value.Some? ==> o.result.value.value.id == reference
  {
    var f := FetchStep(srv, s, reference);
    if f.result.Error? then Out(Error(f.result.msg), f.state)
    else Out(Ok(GetSubject(f.result.value, reference)), f.state)
  }

  /** The first object of `pred` on a settled source subject. */
  function TargetOf(src: Subject, pred: Ref): Option<Ref> {
    GetRef(src.doc, src.id, pred)
  }

  /**
   * `getOnSubject`: a rejection of the source passes through, a null source or a missing
   * reference gives null, otherwise the referenced subject of the source's own document.
   */
  function OnSubject(src: Result<Option<Subject>>, pred: Ref): (r: Result<Option<Subject>>)
    ensures src.Error? ==> r == Error(src.msg)
    ensures r.Ok? <==> src.Ok?
    ensures r.Ok? && r.value.Some? <==>
      src.Ok? && src.value.Some? && TargetOf(src.value.value, pred).Some?
      && TargetOf(src.value.value, pred).value in src.value.value.doc.order
    ensures r.Ok? && r.value.Some? ==>
      r.value.value == Subject(src.value.value.doc, TargetOf(src.value.value, pred).value)
  {
    if src.Error? then Error(src.msg)
    else if src.value.None? then Ok(None)
    else
      var target := TargetOf(src.value.value, pred);
      if target.None? then Ok(None) else Ok(GetSubject(src.value.value.doc, target.value))
  }

  /** The subject holds each pair of `refs` as the first object of its predicate (`getRef(p) === o`). */
  predicate Matches(d: Doc, s: Ref, refs: seq<Pair>) {
    refs == [] || (GetRef(d, s, refs[0].pred) == Some(refs[0].obj) && Matches(d, s, refs[1..]))
  }

  /** `refs.every(...)`: matching is holding every pair. */
  lemma {:induction false} MatchesEvery(d: Doc, s: Ref, refs: seq<Pair>)
    ensures Matches(d, s, refs) <==> forall k | 0 <= k < |refs| :: GetRef(d, s, refs[k].pred) == Some(refs[k].obj)
  {
    if refs != [] {
      MatchesEvery(d, s, refs[1..]);
      assert forall k | 1 <= k < |refs| :: refs[k] == refs[1..][k - 1];
    }
  }

  /** No IRI occurs twice. */
  predicate Distinct(ids: seq<Ref>) {
    forall i, j | 0 <= i < j < |ids| :: ids[i] != ids[j]
  }

  /** `ids.filter(s => refs.every(...))`: the matching IRIs of `ids`, in order. */
  function FilterMatching(d: Doc, ids: seq<Ref>, refs: seq<Pair>): (r: seq<Ref>)
    ensures forall s :: s in r <==> s in ids && Matches(d, s, refs)
    ensures Distinct(ids) ==> Distinct(r)
  {
    if ids == [] then []
    else
      var rest := FilterMatching(d, ids[1..], refs);
      assert forall s :: s in ids <==> s == ids[0] || s in ids[1..];
      if Matches(d, ids[0], refs) then [ids[0]] + rest else rest
  }

  /** A list of distinct IRIs with two entries holds two different IRIs. */
  lemma TwoDistinct(ids: seq<Ref>)
    requires Distinct(ids) && |ids| >= 2
    ensures ids[0] in ids && ids[1] in ids && ids[0] != ids[1]
  {
  }

  lemma {:induction false} SubjectsWithDistinct(d: Doc, ids: seq<Ref>, p: Ref, o: Ref)
    requires Distinct(ids)
    ensures Distinct(SubjectsWith(d, ids, p, o))
  {
    if ids != [] {
      SubjectsWithDistinct(d, ids[1..], p, o);
      assert ids[0] !in ids[1..];
    }
  }

  /** The subjects that match the first pair of `refs` and then every pair. */
  function MatchingSubjects(d: Doc, refs: seq<Pair>): seq<Ref>
    requires refs != []
  {
    FilterMatching(d, FindSubjects(d, refs[0].pred, refs[0].obj), refs)
  }

  /**
   * Narrowing to the subjects that match the first pair loses nothing: the candidates are
   * exactly the document's subjects that match every pair, each listed once.
   */
  lemma MatchingSubjectsExact(d: Doc, refs: seq<Pair>)
    requires refs != []
    ensures forall s :: s in MatchingSubjects(d, refs) <==> s in d.order && Matches(d, s, refs)
    ensures Distinct(MatchingSubjects(d, refs))
  {
    forall s | s in d.order && Matches(d, s, refs)
      ensures s in FindSubjects(d, refs[0].pred, refs[0].obj)
    {
      assert GetRef(d, s, refs[0].pred) == Some(refs[0].obj);
    }
    SubjectsWithDistinct(d, d.order, refs[0].pred, refs[0].obj);
  }

  /**
   * The candidates come in document order: narrowing to the subjects that hold the first pair
   * and then filtering gives the document's own subjects, filtered, in the order they were added.
   */
  lemma MatchingSubjectsInOrder(d: Doc, refs: seq<Pair>)
    requires refs != []
    ensures MatchingSubjects(d, refs) == FilterMatching(d, d.order, refs)
  {
    NarrowingKeepsMatches(d, d.order, refs);
  }

  lemma {:induction false} NarrowingKeepsMatches(d: Doc, ids: seq<Ref>, refs: seq<Pair>)
    requires refs != []
    ensures FilterMatching(d, SubjectsWith(d, ids, refs[0].pred, refs[0].obj), refs) == FilterMatching(d, ids, refs)
  {
    if ids != [] {
      var p, o := refs[0].pred, refs[0].obj;
      var rest := SubjectsWith(d, ids[1..], p, o);
      NarrowingKeepsMatches(d, ids[1..], refs);
      if o in Values(d, ids[0], p) {
        assert SubjectsWith(d, ids, p, o) == [ids[0]] + rest;
        assert ([ids[0]] + rest)[1..] == rest;
      } else {
        assert SubjectsWith(d, ids, p, o) == rest;
        assert !Matches(d, ids[0], refs);
      }
    }
  }

  /** `t` matches every pair, and no subject added to the document before it does. */
  predicate FirstMatch(d: Doc, refs: seq<Pair>, t: Ref) {
    && t in d.order && Matches(d, t, refs)
    && forall i, j | 0 <= j < i < |d.order| && d.order[i] == t :: !Matches(d, d.order[j], refs)
  }

  /** In a list without repeats, nothing before the first match matches. */
  lemma {:induction false} FirstMatchFirst(d: Doc, ids: seq<Ref>, refs: seq<Pair>, i: nat)
    requires Distinct(ids) && i < |ids|
    requires FilterMatching(d, ids, refs) != [] && ids[i] == FilterMatching(d, ids, refs)[0]
    ensures forall j | 0 <= j < i :: !Matches(d, ids[j], refs)
  {
    var rest := FilterMatching(d, ids[1..], refs);
    if !Matches(d, ids[0], refs) {
      assert FilterMatching(d, ids, refs) == rest;
      assert rest[0] in rest;
      assert i != 0;
      assert ids[i] == ids[1..][i - 1];
      FirstMatchFirst(d, ids[1..], refs, i - 1);
      forall j | 0 <= j < i
        ensures !Matches(d, ids[j], refs)
      {
        if j > 0 {
          assert ids[j] == ids[1..][j - 1];
        }
      }
    }
  }

  /** The first candidate is the first subject of the document that matches every pair. */
  lemma MatchingSubjectsFirst(d: Doc, refs: seq<Pair>)
    requires refs != [] && MatchingSubjects(d, refs) != []
    ensures FirstMatch(d, refs, MatchingSubjects(d, refs)[0])
  {
    var m := MatchingSubjects(d, refs);
    MatchingSubjectsInOrder(d, refs);
    MatchingSubjectsExact(d, refs);
    assert m[0] in m;
    forall i | 0 <= i < |d.order| && d.order[i] == m[0]
      ensures forall j | 0 <= j < i :: !Matches(d, d.order[j], refs)
    {
      FirstMatchFirst(d, d.order, refs, i);
    }
  }

  /** `getWithRefsFromDoc`: the one subject that matches every pair, or null when none or several do. */
  function WithRefsFromDoc(d: Doc, refs: seq<Pair>): (r: Result<Option<Subject>>)
    ensures r.Error? <==> refs == []
    ensures r.Error? ==> r.msg == NoIdentifyingProperty
    ensures r.Ok? && r.value.Some? ==> r.value.value.doc == d
  {
    if refs == [] then Error(NoIdentifyingProperty)
    else
      var m := MatchingSubjects(d, refs);
      if |m| != 1 then Ok(None) else Ok(Some(Subject(d, m[0])))
  }

  /** `t` is the one subject of the document that matches every pair. */
  predicate OnlyMatch(d: Doc, refs: seq<Pair>, t: Ref) {
    t in d.order && Matches(d, t, refs) && forall u | u in d.order && Matches(d, u, refs) :: u == t
  }

  /** A subject is found exactly when it is the only one of the document that matches every pair. */
  lemma WithRefsFromDocUnique(d: Doc, refs: seq<Pair>, t: Ref)
    requires refs != []
    ensures WithRefsFromDoc(d, refs) == Ok(Some(Subject(d, t))) <==> OnlyMatch(d, refs, t)
  {
    if OnlyMatch(d, refs, t) {
      OnlyMatchFound(d, refs, t);
    }
    if WithRefsFromDoc(d, refs) == Ok(Some(Subject(d, t))) {
      FoundIsOnlyMatch(d, refs, t);
    }
  }

  /** The only matching subject is the one candidate. */
  lemma OnlyMatchFound(d: Doc, refs: seq<Pair>, t: Ref)
    requires refs != [] && OnlyMatch(d, refs, t)
    ensures MatchingSubjects(d, refs) == [t]
  {
    var m := MatchingSubjects(d, refs);
    MatchingSubjectsExact(d, refs);
    forall u | u in m
      ensures u == t
    {
      assert u in d.order && Matches(d, u, refs);
    }
    OnlyElement(m, t);
  }

  /** A list without repeats that holds `t` and nothing else is `[t]`. */
  lemma OnlyElement(m: seq<Ref>, t: Ref)
    requires Distinct(m) && t in m
    requires forall u | u in m :: u == t
    ensures m == [t]
  {
    if |m| != 1 {
      TwoDistinct(m);
      assert false;
    }
  }

  /** A lone candidate is the only matching subject. */
  lemma FoundIsOnlyMatch(d: Doc, refs: seq<Pair>, t: Ref)
    requires refs != [] && MatchingSubjects(d, refs) == [t]
    ensures OnlyMatch(d, refs, t)
  {
    MatchingSubjectsExact(d, refs);
    assert t in MatchingSubjects(d, refs);
  }

  /** `getWithRefs`: the locator of a settled document picks the subject. */
  function FoundInSpec(doc: Result<Option<Doc>>, l: Locator): (r: Result<Option<Subject>>)
    ensures doc.Error? ==> r == Error(doc.msg)
    ensures doc == Ok(None) ==> r == Ok(None)
    ensures doc.Ok? && doc.value.Some? && !IsWithRefLocator(l) && !IsAsRefLocator(l) ==> r == Error(UnknownLocator)
  {
    if doc.Error? then Error(doc.msg)
    else if doc.value.None? then Ok(None)
    else if IsWithRefLocator(l) then WithRefsFromDoc(doc.value.value, l.references.value)
    else if IsAsRefLocator(l) then Ok(GetSubject(doc.value.value, l.reference.value))
    else Error(UnknownLocator)
  }

  /** A locator with both `references` and `reference` is read as a list of references. */
  lemma LocatorTieBreak(d: Doc, l: Locator)
    requires IsWithRefLocator(l) && IsAsRefLocator(l)
    ensures FoundInSpec(Ok(Some(d)), l) == WithRefsFromDoc(d, l.references.value)
  {
  }

  // Creating

  /** `addRef(p, o)` on subject `s` for each pair of `ps`, in order. */
  function AddRefs(d: Doc, s: Ref, ps: seq<Pair>): (r: Doc)
    ensures r.ref == d.ref && r.saved == d.saved && r.acl == d.acl
    ensures ps != [] ==> r.order == AddSubject(d, s).order
  {
    if ps == [] then d else AddRef(AddRefs(d, s, ps[..|ps| - 1]), s, ps[|ps| - 1].pred, ps[|ps| - 1].obj)
  }

  /** Every pair added is held afterwards. */
  lemma {:induction false} AddRefsHolds(d: Doc, s: Ref, ps: seq<Pair>, k: nat)
    requires k < |ps|
    ensures ps[k].obj in Values(AddRefs(d, s, ps), s, ps[k].pred)
  {
    var init, last := ps[..|ps| - 1], ps[|ps| - 1];
    var m := AddRefs(d, s, init);
    ValuesAddRef(m, s, last.pred, last.obj, s, ps[k].pred);
    if k < |ps| - 1 {
      assert init[k] == ps[k];
      AddRefsHolds(d, s, init, k);
    }
  }

  /** No two pairs share a predicate. */
  predicate DistinctPredicates(ps: seq<Pair>) {
    forall i, j | 0 <= i < j < |ps| :: ps[i].pred != ps[j].pred
  }

  /** On a subject with no statements yet, pairs with distinct predicates each become their predicate's only value. */
  lemma {:induction false} AddRefsFresh(d: Doc, s: Ref, ps: seq<Pair>, k: nat)
    requires s !in d.props && k < |ps|
    requires DistinctPredicates(ps)
    ensures Values(AddRefs(AddSubject(d, s), s, ps), s, ps[k].pred) == [ps[k].obj]
  {
    var init, last := ps[..|ps| - 1], ps[|ps| - 1];
    if k == |ps| - 1 {
      AddRefsFreshLast(d, s, ps);
    } else {
      assert init[k] == ps[k];
      AddRefsFresh(d, s, init, k);
      ValuesAddRef(AddRefs(AddSubject(d, s), s, init), s, last.pred, last.obj, s, ps[k].pred);
    }
  }

  lemma AddRefsFreshLast(d: Doc, s: Ref, ps: seq<Pair>)
    requires s !in d.props && ps != []
    requires DistinctPredicates(ps)
    ensures Values(AddRefs(AddSubject(d, s), s, ps), s, ps[|ps| - 1].pred) == [ps[|ps| - 1].obj]
  {
    var init, last := ps[..|ps| - 1], ps[|ps| - 1];
    var d0 := AddSubject(d, s);
    AddRefsNone(d0, s, init, last.pred);
    ValuesAddRef(AddRefs(d0, s, init), s, last.pred, last.obj, s, last.pred);
  }

  /** Pairs whose predicate is not `p` add no object of `p` to a subject that holds none. */
  lemma {:induction false} AddRefsNone(d: Doc, s: Ref, ps: seq<Pair>, p: Ref)
    requires Values(d, s, p) == []
    requires forall x | x in ps :: x.pred != p
    ensures Values(AddRefs(d, s, ps), s, p) == []
  {
    if ps != [] {
      var init, last := ps[..|ps| - 1], ps[|ps| - 1];
      assert forall x | x in init :: x in ps;
      AddRefsNone(d, s, init, p);
      ValuesAddRef(AddRefs(d, s, init), s, last.pred, last.obj, s, p);
    }
  }

  /** The local document after the new subject took the pairs and the root subject the back-link. */
  function WithNewSubject(d: Doc, refs: seq<Pair>): Doc {
    var id := FreshId(d);
    AddRef(AddRefs(AddSubject(d, id), id, refs), d.ref, DctermsReferences, id)
  }

  /**
   * `ensureWithRefsInDoc`: the first subject matching every pair; when there is none, a new
   * subject that takes every pair, linked from the document's root subject, both saved. The
   * root subject is only written to, and `addRef` on it creates it when the document held no
   * statement about its own IRI, so a fresh, empty document takes the new subject as well.
   */
  function EnsureWithRefsSpec(srv: Server, s: PodState, d: Doc, refs: seq<Pair>): (o: Out<Option<Subject>>)
    requires Consistent(s)
    ensures Consistent(o.state)
  {
    if refs == [] then Out(Error(NoIdentifyingProperty), s)
    else
      var m := MatchingSubjects(d, refs);
      if m != [] then Out(Ok(Some(Subject(d, m[0]))), s)
      else CreateWithRefs(srv, s, d, refs)
  }

  /** The new subject of `ensureWithRefsInDoc`, saved together with the root subject that links to it. */
  function CreateWithRefs(srv: Server, s: PodState, d: Doc, refs: seq<Pair>): (o: Out<Option<Subject>>)
    requires Consistent(s)
    ensures Consistent(o.state)
  {
    var id := FreshId(d);
    var o := SaveStep(srv, s, WithNewSubject(d, refs), Some([id, d.ref]));
    Out(Ok(GetSubject(o.result.value, id)), o.state)
  }

  /** When some subject already matches every pair, the first one is returned and nothing is written. */
  lemma EnsureWithRefsReuses(srv: Server, s: PodState, d: Doc, refs: seq<Pair>)
    requires Consistent(s) && refs != []
    requires exists u :: u in d.order && Matches(d, u, refs)
    ensures var o := EnsureWithRefsSpec(srv, s, d, refs);
      && o.state == s && o.result.Ok? && o.result.value.Some?
      && o.result.value.value.doc == d && FirstMatch(d, refs, o.result.value.value.id)
  {
    MatchingSubjectsExact(d, refs);
    var u :| u in d.order && Matches(d, u, refs);
    assert u in MatchingSubjects(d, refs);
    MatchingSubjectsFirst(d, refs);
  }

  /** When no subject of the document matches every pair, there is no candidate. */
  lemma NoCandidates(d: Doc, refs: seq<Pair>)
    requires refs != []
    requires forall u | u in d.order :: !Matches(d, u, refs)
    ensures MatchingSubjects(d, refs) == []
  {
    var m := MatchingSubjects(d, refs);
    MatchingSubjectsExact(d, refs);
    if m != [] {
      FirstIn(m);
      assert false;
    }
  }

  lemma FirstIn(ids: seq<Ref>)
    requires ids != []
    ensures ids[0] in ids
  {
  }

  /** The new subject holds every pair, and the root subject links to it. */
  lemma WithNewSubjectHolds(d: Doc, refs: seq<Pair>)
    ensures var id, d2 := FreshId(d), WithNewSubject(d, refs);
      && id !in d.order && id in d2.props && d.ref in d2.props
      && id in Values(d2, d.ref, DctermsReferences)
      && forall k | 0 <= k < |refs| :: refs[k].obj in Values(d2, id, refs[k].pred)
  {
    var id := FreshId(d);
    var d1 := AddRefs(AddSubject(d, id), id, refs);
    ValuesAddRef(d1, d.ref, DctermsReferences, id, d.ref, DctermsReferences);
    forall k | 0 <= k < |refs|
      ensures refs[k].obj in Values(WithNewSubject(d, refs), id, refs[k].pred)
    {
      AddRefsHolds(AddSubject(d, id), id, refs, k);
      ValuesAddRef(d1, d.ref, DctermsReferences, id, id, refs[k].pred);
    }
  }

  /**
   * When nothing matches, one save writes a subject that was not in the document, holding
   * every pair, and the root subject links to it.
   */
  lemma EnsureWithRefsCreates(srv: Server, s: PodState, d: Doc, refs: seq<Pair>)
    requires Consistent(s) && refs != []
    requires forall u | u in d.order :: !Matches(d, u, refs)
    ensures var o := EnsureWithRefsSpec(srv, s, d, refs);
      && o.result.Ok? && o.result.value.Some?
      && var x := o.result.value.value;
      && x.id !in d.order && x.id in x.doc.order && x.doc.ref == d.ref && d.ref in o.state.docs
      && o.state.log == s.log + [Saved(d.ref)]
      && (forall k | 0 <= k < |refs| :: refs[k].obj in Values(x.doc, x.id, refs[k].pred))
      && x.id in Values(x.doc, d.ref, DctermsReferences)
      && (DistinctPredicates(refs) ==> Matches(x.doc, x.id, refs))
  {
    NoCandidates(d, refs);
    assert EnsureWithRefsSpec(srv, s, d, refs) == CreateWithRefs(srv, s, d, refs);
    CreateWithRefsSaves(srv, s, d, refs);
    CreateWithRefsHolds(srv, s, d, refs);
    if DistinctPredicates(refs) {
      CreateWithRefsMatches(srv, s, d, refs);
    }
  }

  /** The new subject is one save of the document, and was not in the document before. */
  lemma CreateWithRefsSaves(srv: Server, s: PodState, d: Doc, refs: seq<Pair>)
    requires Consistent(s)
    ensures var o := CreateWithRefs(srv, s, d, refs);
      && o.result.Ok? && o.result.value.Some?
      && var x := o.result.value.value;
      && x.id !in d.order && x.id in x.doc.order && x.doc.ref == d.ref && d.ref in o.state.docs
      && o.state.log == s.log + [Saved(d.ref)]
  {
    var id, d2 := FreshId(d), WithNewSubject(d, refs);
    var o := SaveStep(srv, s, d2, Some([id, d.ref]));
    WithNewSubjectHolds(d, refs);
    SavedValues(srv, s, d2, [id, d.ref], id, DctermsReferences);
    assert d2.ref == d.ref;
    assert CreateWithRefs(srv, s, d, refs) == Out(Ok(Some(Subject(o.result.value, id))), o.state);
  }

  /** The saved new subject holds every pair, and the saved root subject links to it. */
  lemma CreateWithRefsHolds(srv: Server, s: PodState, d: Doc, refs: seq<Pair>)
    requires Consistent(s)
    ensures var o := CreateWithRefs(srv, s, d, refs);
      && o.result.Ok? && o.result.value.Some?
      && var x := o.result.value.value;
      && (forall k | 0 <= k < |refs| :: refs[k].obj in Values(x.doc, x.id, refs[k].pred))
      && x.id in Values(x.doc, d.ref, DctermsReferences)
  {
    var id, d2 := FreshId(d), WithNewSubject(d, refs);
    var ids := [id, d.ref];
    var o := SaveStep(srv, s, d2, Some(ids));
    assert CreateWithRefs(srv, s, d, refs) == Out(Ok(Some(Subject(o.result.value, id))), o.state) by {
      SavedValues(srv, s, d2, ids, id, DctermsReferences);
    }
    WithNewSubjectHolds(d, refs);
    SavedValues(srv, s, d2, ids, d.ref, DctermsReferences);
    forall k | 0 <= k < |refs|
      ensures refs[k].obj in Values(o.result.value, id, refs[k].pred)
    {
      SavedValues(srv, s, d2, ids, id, refs[k].pred);
    }
  }

  /** With distinct predicates, the saved new subject matches every pair as `getRef` reads them. */
  lemma CreateWithRefsMatches(srv: Server, s: PodState, d: Doc, refs: seq<Pair>)
    requires Consistent(s) && DistinctPredicates(refs)
    ensures var o := CreateWithRefs(srv, s, d, refs);
      && o.result.Ok? && o.result.value.Some?
      && Matches(o.result.value.value.doc, o.result.value.value.id, refs)
  {
    var id, d2 := FreshId(d), WithNewSubject(d, refs);
    var ids := [id, d.ref];
    var o := SaveStep(srv, s, d2, Some(ids));
    assert CreateWithRefs(srv, s, d, refs) == Out(Ok(Some(Subject(o.result.value, id))), o.state) by {
      WithNewSubjectHolds(d, refs);
      SavedValues(srv, s, d2, ids, id, DctermsReferences);
    }
    forall k | 0 <= k < |refs|
      ensures GetRef(o.result.value, id, refs[k].pred) == Some(refs[k].obj)
    {
      WithNewSubjectValue(d, refs, k);
      SavedValues(srv, s, d2, ids, id, refs[k].pred);
    }
    MatchesEvery(o.result.value, id, refs);
  }

  lemma WithNewSubjectValue(d: Doc, refs: seq<Pair>, k: nat)
    requires DistinctPredicates(refs) && k < |refs|
    ensures FreshId(d) in WithNewSubject(d, refs).props
    ensures Values(WithNewSubject(d, refs), FreshId(d), refs[k].pred) == [refs[k].obj]
  {
    var id := FreshId(d);
    var d1 := AddRefs(AddSubject(d, id), id, refs);
    AddRefsFresh(d, id, refs, k);
    ValuesAddRef(d1, d.ref, DctermsReferences, id, id, refs[k].pred);
  }

  /** A save of only `ids` keeps, on the Pod, the statements the local document holds for them. */
  lemma SavedValues(srv: Server, s: PodState, d: Doc, ids: seq<Ref>, x: Ref, p: Ref)
    requires Consistent(s) && x in ids && x in d.props
    ensures var r := SaveStep(srv, s, d, Some(ids)).result.value;
      x in r.order && Values(r, x, p) == Values(d, x, p)
  {
    MergeValues(Stored(s.docs, d.ref), d, ids, x, p);
  }

  /** `ensureAsRefInDoc`: the subject when the document holds it, else one added (locally) under the reference's fragment. */
  function EnsureAsRef(d: Doc, reference: Ref): (r: Subject)
    ensures r.id in r.doc.order && r.doc.ref == d.ref
    ensures reference in d.order ==> r == Subject(d, reference)
    ensures reference !in d.order ==> r.id == SubjectIri(d.ref, Fragment(reference))
  {
    if reference in d.props then Subject(d, reference)
    else
      var iri := SubjectIri(d.ref, Fragment(reference));
      Subject(AddSubject(d, iri), iri)
  }

  /** A full subject IRI of the document comes back as itself, whether the subject was there or is added. */
  lemma EnsureAsRefKeepsIri(d: Doc, reference: Ref)
    requires '#' in reference && DocumentPart(reference) == d.ref
    ensures EnsureAsRef(d, reference).id == reference
  {
    SplitAtHash(reference);
  }

  /** `ensureWithRefs`: the locator of a settled document picks or creates the subject. */
  function EnsuredInSpec(srv: Server, s: PodState, doc: Result<Option<Doc>>, l: Locator): (o: Out<Option<Subject>>)
    requires Consistent(s)
    ensures Consistent(o.state)
    ensures doc.Error? ==> o == Out(Error(doc.msg), s)
    ensures doc == Ok(None) ==> o == Out(Ok(None), s)
    ensures doc.Ok? && doc.value.Some? && IsAsRefLocator(l) && !IsWithRefLocator(l) ==>
      o == Out(Ok(Some(EnsureAsRef(doc.value.value, l.reference.value))), s)
    ensures doc.Ok? && doc.value.Some? && !IsWithRefLocator(l) && !IsAsRefLocator(l) ==> o == Out(Error(UnknownLocator), s)
  {
    if doc.Error? then Out(Error(doc.msg), s)
    else if doc.value.None? then Out(Ok(None), s)
    else if IsWithRefLocator(l) then EnsureWithRefsSpec(srv, s, doc.value.value, l.references.value)
    else if IsAsRefLocator(l) then Out(Ok(Some(EnsureAsRef(doc.value.value, l.reference.value))), s)
    else Out(Error(UnknownLocator), s)
  }

  /** `ensureOnSubject`: follow `pred` from the source; when it leads nowhere, add a subject, link it, and save both. */
  function EnsureOnSubjectSpec(srv: Server, s: PodState, src: Result<Option<Subject>>, pred: Ref): (o: Out<Option<Subject>>)
    requires Consistent(s)
    ensures Consistent(o.state)
    ensures src.Error? ==> o == Out(Error(src.msg), s)
    ensures src == Ok(None) ==> o == Out(Ok(None), s)
    ensures src.Ok? && src.value.Some? && TargetOf(src.value.value, pred).Some? ==> o == Out(OnSubject(src, pred), s)
  {
    if src.Error? then Out(Error(src.msg), s)
    else if src.value.None? then Out(Ok(None), s)
    else
      var sub := src.value.value;
      var target := TargetOf(sub, pred);
      if target.Some? then Out(Ok(GetSubject(sub.doc, target.value)), s)
      else CreateOnSubject(srv, s, sub, pred)
  }

  /** The new subject of `ensureOnSubject`, saved together with the source that now links to it. */
  function CreateOnSubject(srv: Server, s: PodState, sub: Subject, pred: Ref): (o: Out<Option<Subject>>)
    requires Consistent(s)
    ensures Consistent(o.state)
  {
    var id := FreshId(sub.doc);
    var o := SaveStep(srv, s, AddRef(AddSubject(sub.doc, id), sub.id, pred, id), Some([sub.id, id]));
    Out(Ok(GetSubject(o.result.value, id)), o.state)
  }

  /**
   * When the source has no `pred`, one save adds a subject that was not in the document, and
   * following `pred` from the saved source now leads to exactly that subject.
   */
  lemma EnsureOnSubjectCreates(srv: Server, s: PodState, sub: Subject, pred: Ref)
    requires Consistent(s) && sub.id in sub.doc.order && TargetOf(sub, pred).None?
    ensures var o := EnsureOnSubjectSpec(srv, s, Ok(Some(sub)), pred);
      && o.result.Ok? && o.result.value.Some?
      && var x := o.result.value.value;
      && x.id !in sub.doc.order && x.doc.ref == sub.doc.ref && sub.doc.ref in o.state.docs
      && o.state.log == s.log + [Saved(sub.doc.ref)]
      && OnSubject(Ok(Some(Subject(x.doc, sub.id))), pred) == Ok(Some(x))
  {
    assert EnsureOnSubjectSpec(srv, s, Ok(Some(sub)), pred) == CreateOnSubject(srv, s, sub, pred);
    CreateOnSubjectSaves(srv, s, sub, pred);
    CreateOnSubjectLinks(srv, s, sub, pred);
  }

  lemma CreateOnSubjectSaves(srv: Server, s: PodState, sub: Subject, pred: Ref)
    requires Consistent(s) && sub.id in sub.doc.order
    ensures var o := CreateOnSubject(srv, s, sub, pred);
      && o.result.Ok? && o.result.value.Some?
      && var x := o.result.value.value;
      && x.id !in sub.doc.order && x.doc.ref == sub.doc.ref && sub.doc.ref in o.state.docs
      && o.state.log == s.log + [Saved(sub.doc.ref)]
  {
    var id := FreshId(sub.doc);
    var d2 := AddRef(AddSubject(sub.doc, id), sub.id, pred, id);
    var ids := [sub.id, id];
    var o := SaveStep(srv, s, d2, Some(ids));
    assert id in d2.props;
    SavedValues(srv, s, d2, ids, id, pred);
    assert CreateOnSubject(srv, s, sub, pred) == Out(Ok(Some(Subject(o.result.value, id))), o.state);
  }

  lemma CreateOnSubjectLinks(srv: Server, s: PodState, sub: Subject, pred: Ref)
    requires Consistent(s) && sub.id in sub.doc.order && TargetOf(sub, pred).None?
    ensures var o := CreateOnSubject(srv, s, sub, pred);
      && o.result.Ok? && o.result.value.Some?
      && var x := o.result.value.value;
      && x.id in x.doc.order && TargetOf(Subject(x.doc, sub.id), pred) == Some(x.id)
  {
    var id := FreshId(sub.doc);
    var d1 := AddSubject(sub.doc, id);
    var d2 := AddRef(d1, sub.id, pred, id);
    var ids := [sub.id, id];
    var o := SaveStep(srv, s, d2, Some(ids));
    assert id in d2.props && sub.id in d2.props;
    SavedValues(srv, s, d2, ids, id, pred);
    SavedValues(srv, s, d2, ids, sub.id, pred);
    assert CreateOnSubject(srv, s, sub, pred) == Out(Ok(Some(Subject(o.result.value, id))), o.state);
    ValuesAddRef(d1, sub.id, pred, id, sub.id, pred);
    assert Values(o.result.value, sub.id, pred) == [id];
  }

  /** The `forEach` that adds each pair to the new subject. */
  method AddEach(d0: Doc, s: Ref, refs: seq<Pair>) returns (d: Doc)
    ensures d == AddRefs(d0, s, refs)
  {
    d := d0;
    for i := 0 to |refs|
      invariant d == AddRefs(d0, s, refs[..i])
    {
      assert refs[..i + 1][..i] == refs[..i];
      d := AddRef(d, s, refs[i].pred, refs[i].obj);
    }
    assert refs[..|refs|] == refs;
  }

  /** `ensureWithRefsInDoc` on the Pod. */
  method EnsureWithRefs(pod: Pod, d: Doc, refs: seq<Pair>) returns (r: Result<Option<Subject>>)
    requires pod.Valid()
    modifies pod
    ensures pod.Valid()
    ensures Out(r, pod.State()) == EnsureWithRefsSpec(pod.server, old(pod.State()), d, refs)
  {
    ghost var s0 := pod.State();
    if refs == [] {
      return Error(NoIdentifyingProperty);
    }
    var m := MatchingSubjects(d, refs);
    if m != [] {
      return Ok(Some(Subject(d, m[0])));
    }
    var id := FreshId(d);
    var doc := AddEach(AddSubject(d, id), id, refs);
    doc := AddRef(doc, d.ref, DctermsReferences, id);
    var saved := pod.Save(doc, Some([id, d.ref]));
    r := Ok(GetSubject(saved, id));
    assert Out(r, pod.State()) == CreateWithRefs(pod.server, s0, d, refs);
  }

  /** `ensureWithRefs` on the Pod, given the settled document. */
  method EnsuredIn(pod: Pod, doc: Result<Option<Doc>>, l: Locator) returns (r: Result<Option<Subject>>)
    requires pod.Valid()
    modifies pod
    ensures pod.Valid()
    ensures Out(r, pod.State()) == EnsuredInSpec(pod.server, old(pod.State()), doc, l)
  {
    if doc.Error? {
      return Error(doc.msg);
    } else if doc.value.None? {
      return Ok(None);
    } else if IsWithRefLocator(l) {
      r := EnsureWithRefs(pod, doc.value.value, l.references.value);
    } else if IsAsRefLocator(l) {
      r := Ok(Some(EnsureAsRef(doc.value.value, l.reference.value)));
    } else {
      r := Error(UnknownLocator);
    }
  }

  /** `ensureOnSubject` on the Pod, given the settled source subject. */
  method EnsureOnSubject(pod: Pod, src: Result<Option<Subject>>, pred: Ref) returns (r: Result<Option<Subject>>)
    requires pod.Valid()
    modifies pod
    ensures pod.Valid()
    ensures Out(r, pod.State()) == EnsureOnSubjectSpec(pod.server, old(pod.State()), src, pred)
  {
    if src.Error? {
      return Error(src.msg);
    } else if src.value.None? {
      return Ok(None);
    }
    var sub := src.value.value;
    var target := TargetOf(sub, pred);
    if target.Some? {
      return Ok(GetSubject(sub.doc, target.value));
    }
    var id := FreshId(sub.doc);
    var doc := AddRef(AddSubject(sub.doc, id), sub.id, pred, id);
    var saved := pod.Save(doc, Some([sub.id, id]));
    r := Ok(GetSubject(saved, id));
  }

  /** `fetchByRef` of the Subject resolver on the Pod. */
  method FoundAt(pod: Pod, reference: Ref) returns (r: Result<Option<Subject>>)
    modifies pod`log
    ensures Out(r, pod.State()) == FoundAtSpec(pod.server, old(pod.State()), reference)
  {
    var f := pod.Fetch(reference);
    if f.Error? {
      return Error(f.msg);
    }
    r := Ok(GetSubject(f.value, reference));
  }
}
