/**
 * `configureAcl` (src/services/acl.ts): fetch the ACL document of a resource, or start a
 * new one when there is none, write one authorization per public, agent and origin entry,
 * and save the ACL document in one request.
 */
module AclService {
  import opened Wrappers
  import opened Rdf
  import opened PodStore
  import opened AclModel


  /** The ACL document to edit: the stored one when the fetch succeeds, else a new local one (if the library makes one). */
  function AclDocument(srv: Server, f: Out<Doc>, aclRef: Ref): (r: Option<Doc>)
    ensures f.result.Ok? ==> r == Some(f.result.value)
    ensures f.result.Error? ==> r == CreateDocument(srv, aclRef)
  {
    if f.result.Ok? then Some(f.result.value) else CreateDocument(srv, aclRef)
  }

  /** What `configureAcl(documentRef, aclRef, settings)` does to the Pod, and what it settles with. */
  function ConfigureAclSpec(srv: Server, s: PodState, documentRef: Ref, aclRef: Ref, settings: AclSettings): (o: Out<Doc>)
    requires Consistent(s)
    ensures Consistent(o.state)
  {
    var f := FetchStep(srv, s, aclRef);
    var acl := AclDocument(srv, f, aclRef);
    if acl.None? then Out(Error(AclFetchFailed), f.state)
    else
      SaveStep(srv, f.state, ConfigureRules(acl.value, documentRef, settings), None)
  }

  /** `configureAcl` fails only when there is no ACL document on the Pod and the library makes no local one; it then writes nothing. */
  lemma ConfigureAclFails(srv: Server, s: PodState, documentRef: Ref, aclRef: Ref, settings: AclSettings)
    requires Consistent(s)
    ensures var o := ConfigureAclSpec(srv, s, documentRef, aclRef, settings);
      && (o.result.Error? <==> DocumentPart(aclRef) !in s.docs && !srv.createsLocally)
      && (o.result.Error? ==> o.result.msg == AclFetchFailed && o.state == s.(log := s.log + [Fetched(DocumentPart(aclRef))]))
  {
    var f := FetchStep(srv, s, aclRef);
    var acl := AclDocument(srv, f, aclRef);
    if acl.Some? {
      var d := ConfigureRules(acl.value, documentRef, settings);
      assert ConfigureAclSpec(srv, s, documentRef, aclRef, settings) == SaveStep(srv, f.state, d, None);
    }
  }

  /** A successful `configureAcl` is one fetch and one save of the ACL document, which the Pod then holds. */
  lemma ConfigureAclSaves(srv: Server, s: PodState, documentRef: Ref, aclRef: Ref, settings: AclSettings)
    requires Consistent(s)
    ensures var o := ConfigureAclSpec(srv, s, documentRef, aclRef, settings);
      o.result.Ok? ==>
        && Consistent(o.state)
        && o.state.log == s.log + [Fetched(DocumentPart(aclRef))] + [Saved(o.result.value.ref)]
        && o.result.value.ref in o.state.docs
  {
    var f := FetchStep(srv, s, aclRef);
    var acl := AclDocument(srv, f, aclRef);
    if acl.Some? {
      var d := ConfigureRules(acl.value, documentRef, settings);
      var o := SaveStep(srv, f.state, d, None);
      assert ConfigureAclSpec(srv, s, documentRef, aclRef, settings) == o;
    }
  }

  /** After a successful `configureAcl`, the ACL document holds a rule for every public, agent and origin entry. */
  lemma ConfigureAclGrants(srv: Server, s: PodState, documentRef: Ref, aclRef: Ref, settings: AclSettings)
    requires Consistent(s)
    ensures var o := ConfigureAclSpec(srv, s, documentRef, aclRef, settings);
      o.result.Ok? ==> forall e | e in Entries(settings) :: HasRule(o.result.value, documentRef, e)
  {
    var f := FetchStep(srv, s, aclRef);
    var acl := AclDocument(srv, f, aclRef);
    if acl.Some? {
      var d := ConfigureRules(acl.value, documentRef, settings);
      assert ConfigureAclSpec(srv, s, documentRef, aclRef, settings) == SaveStep(srv, f.state, d, None);
      ConfigureRulesEstablishes(acl.value, documentRef, settings);
      HasRuleView(srv, d, documentRef, Entries(settings));
    }
  }

  lemma {:induction false} AgentEntriesNext(d0: Doc, documentRef: Ref, done: seq<Entry>, agents: seq<(Ref, Modes)>, i: nat)
    requires i < |agents|
    ensures Apply(d0, documentRef, done + AgentEntries(agents[..i + 1]))
         == EntryStep(Apply(d0, documentRef, done + AgentEntries(agents[..i])), documentRef, AgentEntry(agents[i].0, agents[i].1))
  {
    assert agents[..i + 1][..i] == agents[..i];
    assert done + AgentEntries(agents[..i + 1]) == (done + AgentEntries(agents[..i])) + [AgentEntry(agents[i].0, agents[i].1)];
    ApplyAppend(d0, documentRef, done + AgentEntries(agents[..i]), AgentEntry(agents[i].0, agents[i].1));
  }

  lemma {:induction false} OriginAgentEntriesNext(d0: Doc, documentRef: Ref, done: seq<Entry>, origin: Ref, agents: seq<(Ref, Modes)>, j: nat)
    requires j < |agents|
    ensures Apply(d0, documentRef, done + OriginAgentEntries(origin, agents[..j + 1]))
         == EntryStep(Apply(d0, documentRef, done + OriginAgentEntries(origin, agents[..j])), documentRef,
                      OriginEntry(origin, agents[j].0, agents[j].1))
  {
    assert agents[..j + 1][..j] == agents[..j];
    assert done + OriginAgentEntries(origin, agents[..j + 1])
        == (done + OriginAgentEntries(origin, agents[..j])) + [OriginEntry(origin, agents[j].0, agents[j].1)];
    ApplyAppend(d0, documentRef, done + OriginAgentEntries(origin, agents[..j]), OriginEntry(origin, agents[j].0, agents[j].1));
  }

  lemma {:induction false} OriginEntriesNext(d0: Doc, documentRef: Ref, done: seq<Entry>, origins: seq<(Ref, seq<(Ref, Modes)>)>, i: nat)
    requires i < |origins|
    ensures Apply(d0, documentRef, done + OriginEntries(origins[..i + 1]))
         == Apply(d0, documentRef, (done + OriginEntries(origins[..i])) + OriginAgentEntries(origins[i].0, origins[i].1))
  {
    assert origins[..i + 1][..i] == origins[..i];
    assert done + OriginEntries(origins[..i + 1]) == (done + OriginEntries(origins[..i])) + OriginAgentEntries(origins[i].0, origins[i].1);
  }

  /** The `forEach` over the agents of the settings. */
  method AgentRules(doc: Doc, documentRef: Ref, agents: seq<(Ref, Modes)>, ghost d0: Doc, ghost done: seq<Entry>)
    returns (r: Doc)
    requires doc == Apply(d0, documentRef, done)
    ensures r == Apply(d0, documentRef, done + AgentEntries(agents))
  {
    r := doc;
    assert done + AgentEntries(agents[..0]) == done;
    for i := 0 to |agents|
      invariant r == Apply(d0, documentRef, done + AgentEntries(agents[..i]))
    {
      AgentEntriesNext(d0, documentRef, done, agents, i);
      r := EntryStep(r, documentRef, AgentEntry(agents[i].0, agents[i].1));
    }
    assert agents[..|agents|] == agents;
  }

  /** The inner `forEach` over the agents of one origin. */
  method OriginAgentRules(doc: Doc, documentRef: Ref, origin: Ref, agents: seq<(Ref, Modes)>, ghost d0: Doc, ghost done: seq<Entry>)
    returns (r: Doc)
    requires doc == Apply(d0, documentRef, done)
    ensures r == Apply(d0, documentRef, done + OriginAgentEntries(origin, agents))
  {
    r := doc;
    assert done + OriginAgentEntries(origin, agents[..0]) == done;
    for j := 0 to |agents|
      invariant r == Apply(d0, documentRef, done + OriginAgentEntries(origin, agents[..j]))
    {
      OriginAgentEntriesNext(d0, documentRef, done, origin, agents, j);
      r := EntryStep(r, documentRef, OriginEntry(origin, agents[j].0, agents[j].1));
    }
    assert agents[..|agents|] == agents;
  }

  /** The outer `forEach` over the origins of the settings. */
  method OriginRules(doc: Doc, documentRef: Ref, origins: seq<(Ref, seq<(Ref, Modes)>)>, ghost d0: Doc, ghost done: seq<Entry>)
    returns (r: Doc)
    requires doc == Apply(d0, documentRef, done)
    ensures r == Apply(d0, documentRef, done + OriginEntries(origins))
  {
    r := doc;
    assert done + OriginEntries(origins[..0]) == done;
    for i := 0 to |origins|
      invariant r == Apply(d0, documentRef, done + OriginEntries(origins[..i]))
    {
      OriginEntriesNext(d0, documentRef, done, origins, i);
      r := OriginAgentRules(r, documentRef, origins[i].0, origins[i].1, d0, done + OriginEntries(origins[..i]));
    }
    assert origins[..|origins|] == origins;
  }

  /** `configureAcl`: fetch or create the ACL document, write the public, agent and origin rules, save. */
  method ConfigureAcl(pod: Pod, documentRef: Ref, aclRef: Ref, settings: AclSettings) returns (r: Result<Doc>)
    requires pod.Valid()
    modifies pod
    ensures pod.Valid()
    ensures Out(r, pod.State()) == ConfigureAclSpec(pod.server, old(pod.State()), documentRef, aclRef, settings)
  {
    var fetched := pod.Fetch(aclRef);
    var acl := if fetched.Ok? then Some(fetched.value) else CreateDocument(pod.server, aclRef);
    if acl.None? {
      return Error(AclFetchFailed);
    }
    var doc := RulesOf(acl.value, documentRef, settings);
    var saved := pod.Save(doc, None);
    r := Ok(saved);
  }

  /** The three groups of `configureAcl`, in order, on the ACL document. */
  method RulesOf(acl: Doc, documentRef: Ref, settings: AclSettings) returns (doc: Doc)
    ensures doc == ConfigureRules(acl, documentRef, settings)
  {
    var pub := PublicGroup(settings);
    doc := acl;
    if settings.public.Some? {
      ApplyAppend(acl, documentRef, [], PublicEntry(settings.public.value));
      doc := EntryStep(doc, documentRef, PublicEntry(settings.public.value));
    }
    var agents := pub + AgentGroup(settings);
    if settings.agents.Some? {
      doc := AgentRules(doc, documentRef, settings.agents.value, acl, pub);
    } else {
      ApplyNothing(acl, documentRef, pub);
    }
    if settings.origins.Some? {
      doc := OriginRules(doc, documentRef, settings.origins.value, acl, agents);
    } else {
      ApplyNothing(acl, documentRef, agents);
    }
  }

  lemma ApplyNothing(d0: Doc, documentRef: Ref, done: seq<Entry>)
    ensures Apply(d0, documentRef, done + []) == Apply(d0, documentRef, done)
  {
    assert done + [] == done;
  }
}
