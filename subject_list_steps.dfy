/** The one way a list of Subjects is found: every Subject of a Document that carries all given pairs. */
module SubjectListSteps {
  import opened Wrappers
  import opened Rdf
  import opened SubjectSteps

  /**
   * `getWithRefs` of the list resolver, once its Document has settled: a rejection or a
   * missing Document passes through, no pairs at all is refused, and otherwise the list holds
   * the Subjects matching the first pair that also match every other one.
   */
  function ListWithRefs(doc: Result<Option<Doc>>, refs: seq<Pair>): (r: Result<Option<seq<Subject>>>)
    ensures doc.Error? ==> r == Error(doc.msg)
    ensures doc == Ok(None) ==> r == Ok(None)
    ensures doc.Ok? && doc.value.Some? && refs == [] ==> r == Error(NoIdentifyingProperties)
  {
    if doc.Error? then Error(doc.msg)
    else if doc.value.None? then Ok(None)
    else if refs == [] then Error(NoIdentifyingProperties)
    else Ok(Some(AsSubjects(doc.value.value, MatchingSubjects(doc.value.value, refs))))
  }

  /** The Subjects `ids` of `d`, in order. */
  function AsSubjects(d: Doc, ids: seq<Ref>): (r: seq<Subject>)
    ensures |r| == |ids|
    ensures forall k | 0 <= k < |ids| :: r[k] == Subject(d, ids[k])
  {
    if ids == [] then [] else [Subject(d, ids[0])] + AsSubjects(d, ids[1..])
  }

  /**
   * A found list is exactly the Document's Subjects that carry every pair, each listed once:
   * narrowing by the first pair first loses none of them.
   */
  lemma ListWithRefsExact(d: Doc, refs: seq<Pair>)
    requires refs != []
    ensures var r := ListWithRefs(Ok(Some(d)), refs);
      && r.Ok? && r.value.Some?
      && (forall x :: Subject(d, x) in r.value.value <==> x in d.order && Matches(d, x, refs))
      && (forall i, j | 0 <= i < j < |r.value.value| :: r.value.value[i] != r.value.value[j])
      && (forall t | t in r.value.value :: t.doc == d)
  {
    var ids := MatchingSubjects(d, refs);
    MatchingSubjectsExact(d, refs);
    var l := AsSubjects(d, ids);
    forall x
      ensures Subject(d, x) in l <==> x in ids
    {
      if Subject(d, x) in l {
        var k :| 0 <= k < |l| && l[k] == Subject(d, x);
        assert ids[k] == x;
      }
      if x in ids {
        var k :| 0 <= k < |ids| && ids[k] == x;
        assert l[k] == Subject(d, x);
      }
    }
  }

  /**
   * A found list keeps the Document's order: it is the Document's Subjects, in the order they
   * were added, less those that do not carry every pair.
   */
  lemma ListWithRefsInOrder(d: Doc, refs: seq<Pair>)
    requires refs != []
    ensures ListWithRefs(Ok(Some(d)), refs) == Ok(Some(AsSubjects(d, FilterMatching(d, d.order, refs))))
  {
    MatchingSubjectsInOrder(d, refs);
  }
}
