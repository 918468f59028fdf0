# plandoc resolution, modelled in Dafny

plandoc lets an application describe the Subjects, Documents and Containers it needs on a
Solid Pod before anything is fetched. A *virtual* Subject, Document, Container or Subject List
is a handle wrapping a *descriptor*: a tagged record that says how to find the thing. Examples
are "the Document at this IRI", "the Subject this Subject links to through that predicate" and
"the child Container with this name, created when missing". A resolver (`fetchSubject`,
`fetchDocument`, `fetchContainer`, `fetchSubjectList`) dispatches on the descriptor's tag. It
first resolves the handles the descriptor nests, then runs one fetcher. The fetcher may read the
Pod, and its `ensure…` variants create and save what is missing, including access-control
rules. The outcome is kept in the handle, so each handle is resolved at most once.

The model has these parts:

- `wrappers.dfy`: `Option`, `Result`, and the failures the resolvers raise.
- `rdf.dfy`: the slice of the RDF document library the core calls. This covers subjects in
  order, predicates with ordered objects, `getRef`, `addRef`, `setRef`, `addSubject`,
  `findSubject` and `findSubjects`. The library itself is not part of this model; these
  functions stand for it.
- `pod.dfy`: the Pod as a value. It holds the stored documents, a log of the requests sent, and
  a bound on IRI length used to pick fresh names. Each request (fetch, save, save of some
  subjects, DELETE, create-in-container) is a step function. A `Pod` class carries the same
  state in fields, and its methods are proved equal to the steps.
- `acl_model.dfy` and `acl_service.dfy`: `hasAclSettings` and `configureAcl`. The rule writes
  are functions. The `forEach` loops are methods with loop invariants, proved equal to those
  functions.
- `descriptors.dfy`: the descriptor datatypes of each kind and their tag tests. It also holds
  the handle classes. A handle has an immutable descriptor and a mutable `promise` slot.
- `virtual.dfy`: the builder functions (`isFoundAt`, `isEnsuredOn`, `withRef`, `asRef`, …).
- `serialise.dfy`: `serialise`, the plain-object form of a descriptor tree.
- `subject_steps.dfy`, `document_steps.dfy`, `container_steps.dfy` and
  `subject_list_steps.dfy`: each fetcher's work once the handles it waits on have settled. Each
  is written twice: as a step function over the Pod value with its lemmas, and as a method on a
  `Pod` object proved equal to the step.
- `resolvers.dfy`: the resolvers and fetchers as methods.
  - The methods mutate the handles in place and pass the Pod value along.
  - Each is proved to agree with the step function of the fetcher its tag selects.
  - A handle that had already settled keeps its value through any resolution.

A JavaScript promise is modelled by the value it settles with. A `Result` is either `Ok(v)` or
`Error(failure)`, and a rejection is an `Error`. A thrown `TypeError` (for example, reading a
property of `undefined`) is also a `Failure` case.

## Model

| member | source | states |
|---|---|---|
| Resolvers.ResolveSubject | src/actors/subject.ts:35-59 | A handle that has settled returns its value and sends no request. Otherwise `IsFoundAt` settles as `fetchByRef`, and an unknown tag rejects with `UnknownType` and sends nothing. The outcome is stored in the handle, and every other settled handle keeps its value. |
| Resolvers.SelectSubject | src/actors/subject.ts:42-54 | The tag chooses the fetcher. `IsFoundOn` gives `getOnSubject` of the settled source Subject. `IsFoundIn` gives `getWithRefs` of the settled Document. `IsFoundAt` gives `fetchByRef`, and any other tag gives `UnknownType`. |
| Resolvers.GetOnSubject | src/actors/subject.ts:78-92 | Resolves the source handle, then settles with the linked Subject read from the source, sending nothing more. |
| Resolvers.EnsureOnSubject | src/actors/subject.ts:97-120 | Resolves the source handle, then does what `ensureOnSubject` does to the Pod state at that point. |
| Resolvers.GetWithRefs | src/actors/subject.ts:125-143 | Resolves the Document handle, then applies the locator to it, sending nothing more. |
| Resolvers.EnsureWithRefs | src/actors/subject.ts:191-209 | Resolves the Document handle, then picks or creates the Subject as `ensureWithRefs` does. |
| Resolvers.ResolveDocument | src/actors/document.ts:25-47 | Memoises like `ResolveSubject`. `ByRef` is one fetch of the Document holding the IRI, and an unknown tag rejects with `UnknownType`. |
| Resolvers.SelectDocument | src/actors/document.ts:32-42 | The tag chooses among `fetchByRef`, `getFromAcl`, `getForRef` and `ensureForRef`. Any other tag gives `UnknownType`. |
| Resolvers.GetFromAcl | src/actors/document.ts:57-66 | Resolves the main Document, then fetches the ACL Document it names. |
| Resolvers.GetForRef | src/actors/document.ts:68-80 | Resolves the Subject, then fetches the Document its predicate points to. |
| Resolvers.EnsureForRef | src/actors/document.ts:82-188 | Resolves the Subject. If the Subject has no object for the predicate, it resolves the fallback Container and creates, links and configures a Document. Otherwise it is `getForRef`. |
| Resolvers.ResolveContainer | src/actors/container.ts:28-49 | Memoises like `ResolveSubject`. `IsFoundAt` settles with the IRI itself and sends no request, and an unknown tag rejects with `UnknownType`. |
| Resolvers.SelectContainer | src/actors/container.ts:36-44 | The tag chooses among the IRI itself, `getForRef` (no request of its own) and `ensureInContainer`. Any other tag gives `UnknownType`. For `IsContainedIn`, the parent handle has settled: a rejected or null parent passes through, and a success is the child of the settled parent. |
| Resolvers.GetContainerForRef | src/actors/container.ts:62-74 | Resolves the Subject, then settles with the IRI its predicate points to, with no request. |
| Resolvers.EnsureInContainer | src/actors/container.ts:79-130 | Resolves the parent Container, then finds or creates the child as `ensureInContainer` does. |
| Resolvers.ResolveSubjectList | src/actors/subjectList.ts:10-26 | Memoises the handle. `IsFoundIn` resolves the Document and lists every Subject matching all pairs. Every other tag, including `IsFoundOn`, rejects with `UnknownType`. |
| SubjectSteps.FoundAtSpec | src/actors/subject.ts:68-73 | One fetch of the Document part of the IRI. It fails exactly when the Pod has no such Document, and yields the Subject exactly when that Document holds it. |
| SubjectSteps.OnSubject | src/actors/subject.ts:78-92 | A rejected source passes through, and a null source or a missing link gives null. Otherwise the result is the linked Subject in the source's own Document. |
| SubjectSteps.MatchesEvery | src/actors/subject.ts:166-170 | A Subject matches a list of pairs exactly when `getRef` returns the object of each pair. |
| SubjectSteps.MatchingSubjectsExact | src/actors/subject.ts:162-170 | Filtering on the first pair and then on all pairs keeps exactly the Document's Subjects that match every pair, each listed once. |
| SubjectSteps.WithRefsFromDoc | src/actors/subject.ts:148-177 | Throws exactly when there are no pairs. A Subject it finds comes from the Document searched. |
| SubjectSteps.WithRefsFromDocUnique | src/actors/subject.ts:148-177 | `getWithRefsFromDoc` finds a Subject exactly when it is the only Subject matching every pair. It gives null when none or several match. |
| SubjectSteps.FoundInSpec | src/actors/subject.ts:125-143 | A rejected or null Document passes through. A locator with neither `references` nor `reference` rejects with `UnknownLocator`. |
| SubjectSteps.LocatorTieBreak | src/actors/subject.ts:136-141 | A locator carrying both `references` and `reference` is read as a list of references. |
| SubjectSteps.AddRefsHolds | src/actors/subject.ts:241-244 | After the `forEach` of `addRef`s, the new Subject holds every pair. |
| SubjectSteps.AddRefsFresh | src/actors/subject.ts:241-244 | On a new Subject, pairs with distinct predicates each become their predicate's only object. |
| SubjectSteps.AddRefsNone | src/actors/subject.ts:241-244 | Adding pairs for other predicates leaves a predicate with no objects empty. |
| SubjectSteps.EnsureWithRefsSpec | src/actors/subject.ts:213-251 | Never breaks the Pod invariant. Refuses an empty list of pairs, and returns the first match without writing. Otherwise it creates and saves, also in a Document that holds no root Subject yet. |
| SubjectSteps.EnsureWithRefsReuses | src/actors/subject.ts:226-238 | When some Subject matches every pair, the result is the first Subject, in Document order, that matches every pair, and the Pod is unchanged. |
| SubjectSteps.MatchingSubjectsInOrder | src/actors/subject.ts:162-170 | Filtering on the first pair and then on all pairs gives the matching Subjects in Document order. |
| SubjectSteps.MatchingSubjectsFirst | src/actors/subject.ts:226-237 | The first candidate matches every pair, and no Subject before it in the Document does. |
| SubjectSteps.NoCandidates | src/actors/subject.ts:226-238 | When no Subject of the Document matches every pair, the candidate list is empty. |
| SubjectSteps.WithNewSubjectHolds | src/actors/subject.ts:240-247 | The new Subject was not in the Document, holds every pair, and is linked from the root Subject by `dct:references`. |
| SubjectSteps.EnsureWithRefsCreates | src/actors/subject.ts:240-250 | With no match, one save writes a new Subject that holds every pair and is linked from the root. With distinct predicates it matches every pair. |
| SubjectSteps.CreateWithRefs | src/actors/subject.ts:240-250 | Keeps the Pod invariant. What it writes is stated by the three lemmas below. |
| SubjectSteps.CreateWithRefsSaves | src/actors/subject.ts:241-250 | The new Subject comes from one save of its Document and is new to that Document. |
| SubjectSteps.CreateWithRefsHolds | src/actors/subject.ts:240-250 | On the Pod after the save, the new Subject holds every pair, and the root links to it. |
| SubjectSteps.CreateWithRefsMatches | src/actors/subject.ts:240-250 | With distinct predicates, the saved new Subject matches every pair as `getRef` reads them. |
| SubjectSteps.SavedValues | src/actors/subject.ts:249-250 | Saving only some Subjects stores exactly their local statements. |
| SubjectSteps.EnsureAsRef | src/actors/subject.ts:255-274 | Returns the Subject when the Document holds it. Otherwise it adds one named by the IRI's fragment in this Document. |
| SubjectSteps.EnsureAsRefKeepsIri | src/actors/subject.ts:255-274 | A full Subject IRI of the same Document comes back unchanged, whether or not the Subject was there. |
| SubjectSteps.EnsuredInSpec | src/actors/subject.ts:191-209 | A rejected or null Document passes through. `asRef` never writes, and a locator of neither kind rejects with `UnknownLocator`. |
| SubjectSteps.EnsureOnSubjectSpec | src/actors/subject.ts:97-120 | A rejected or null source passes through. An existing link is followed without any request, and a missing one is created. |
| SubjectSteps.EnsureOnSubjectCreates | src/actors/subject.ts:111-119 | Without a link, one save writes a Subject new to the Document and links the source to it. |
| SubjectSteps.CreateOnSubject | src/actors/subject.ts:111-119 | Keeps the Pod invariant. What it writes is stated by the two lemmas below. |
| SubjectSteps.CreateOnSubjectSaves | src/actors/subject.ts:111-119 | Creation is exactly one save of the source's Document, and the new Subject was not in it. |
| SubjectSteps.CreateOnSubjectLinks | src/actors/subject.ts:111-119 | On the Pod after the save, the source's predicate points to the new Subject and to nothing else. |
| SubjectSteps.AddEach | src/actors/subject.ts:242-244 | The `forEach` loop adds the same pairs, in order, as the recursive definition. |
| SubjectSteps.EnsureWithRefs | src/actors/subject.ts:213-251 | On a `Pod` object, the new state and the result equal `EnsureWithRefsSpec`. |
| SubjectSteps.EnsuredIn | src/actors/subject.ts:191-209 | On a `Pod` object, the new state and the result equal `EnsuredInSpec`. |
| SubjectSteps.EnsureOnSubject | src/actors/subject.ts:97-120 | On a `Pod` object, the new state and the result equal `EnsureOnSubjectSpec`. |
| SubjectSteps.FoundAt | src/actors/subject.ts:68-73 | On a `Pod` object, the new state and the result equal `FoundAtSpec`. |
| SubjectListSteps.ListWithRefs | src/actors/subjectList.ts:32-62 | A rejected or null Document passes through. An empty list of pairs rejects with `NoIdentifyingProperties`. |
| SubjectListSteps.AsSubjects | src/actors/subjectList.ts:51-61 | The Subjects for a list of IRIs, of the same length and in the same order. |
| SubjectListSteps.ListWithRefsExact | src/actors/subjectList.ts:51-61 | The list holds exactly the Document's Subjects matching every pair, with no repeats, all from that Document. |
| SubjectListSteps.ListWithRefsInOrder | src/actors/subjectList.ts:51-61 | The list is the Document's Subjects in the order they were added, less those that do not match every pair. |
| DocumentSteps.Lift | src/actors/document.ts:53-55 | A fetch that succeeds settles with its Document, and a rejection passes through. |
| DocumentSteps.FetchByRefSpec | src/actors/document.ts:53-55 | One fetch, and it keeps the Pod invariant. |
| DocumentSteps.AclForSpec | src/actors/document.ts:57-66 | Keeps the Pod invariant. A rejected main Document passes through, and a null one, or one with no ACL location, gives null without a request. |
| DocumentSteps.AclForFetches | src/actors/document.ts:57-66 | The only request is one fetch of the advertised ACL location. It fails exactly when the Pod holds no Document there, and otherwise yields that saved Document. |
| DocumentSteps.FoundOnSpec | src/actors/document.ts:68-80 | A rejected or null Subject, or a missing link, sends nothing. Otherwise it is one fetch of the linked Document. |
| DocumentSteps.EnsuredOnReuses | src/actors/document.ts:82-91 | When the Subject already links to a Document, `ensureForRef` creates nothing and equals `getForRef`. |
| DocumentSteps.LinkStep | src/actors/document.ts:100-108 | Keeps the Pod invariant. The new Document gets the server's fresh name, and the requests are two saves: the new Document, then the Subject's Document. |
| DocumentSteps.LinkStepLinks | src/actors/document.ts:100-108 | The new Document was not on the Pod and now is. On the Pod, the Subject's predicate points to it and to nothing else. |
| DocumentSteps.InlineAclWrite | src/actors/document.ts:117-184 | Keeps the invariant. A failure is one fetch and nothing else, and a success is one fetch then one save. |
| DocumentSteps.InlineAclWriteGrants | src/actors/document.ts:117-184 | Fails exactly when there is no ACL Document and the library makes none. Otherwise the saved ACL Document grants every public and agent entry's modes for the new Document. |
| DocumentSteps.InlineAclStep | src/actors/document.ts:110-187 | Missing settings fail as a `TypeError` and empty settings leave the Pod as it was. Without an ACL location it fails. Otherwise the Pod state is the inline writer's, whose failure passes through, and a success settles with the new Document. |
| DocumentSteps.InlineAclStepGrants | src/actors/document.ts:110-187 | After a successful step, the ACL Document grants every public and agent entry's modes for the new Document. |
| DocumentSteps.InlineAclWriteFrame | src/actors/document.ts:117-184 | The inline writer loses no Document and changes none but the ACL Document and its parent Container. |
| DocumentSteps.InlineAclStepFrame | src/actors/document.ts:110-187 | With settings and an ACL location, the step loses no Document and changes none but the ACL Document and its parent Container. |
| DocumentSteps.InlineAclStepKeeps | src/actors/document.ts:110-187 | A value stored outside the ACL Document and its parent Container survives a successful step. |
| DocumentSteps.CreateForRefEstablishes | src/actors/document.ts:93-188 | With a settled fallback Container and settings, a success settles with the new Document, which was not on the Pod before and is afterwards, and its ACL Document grants every public and agent entry's modes for it. |
| DocumentSteps.CreateForRefKeepsLink | src/actors/document.ts:93-188 | The Subject's link to the new Document survives the ACL step unless that step wrote the Subject's own Document or its parent Container. |
| DocumentSteps.CreateForRefSpec | src/actors/document.ts:93-188 | A rejected fallback Container passes through, and a null or empty one gives null. Otherwise the Document is created and linked before the ACL step, and missing ACL settings fail as a `TypeError`. |
| DocumentSteps.InlineRules | src/actors/document.ts:129-181 | The public block and the agents' `forEach` write exactly the inline rules of the settings. |
| DocumentSteps.InlineAgentRules | src/actors/document.ts:155-181 | The agents' `forEach` loop writes the same rules, in order, as the recursive definition. |
| DocumentSteps.FetchByRef | src/actors/document.ts:53-55 | On a `Pod` object, equals `FetchByRefSpec`. |
| DocumentSteps.AclFor | src/actors/document.ts:57-66 | On a `Pod` object, equals `AclForSpec`. |
| DocumentSteps.FoundOn | src/actors/document.ts:68-80 | On a `Pod` object, equals `FoundOnSpec`. |
| DocumentSteps.Link | src/actors/document.ts:100-108 | On a `Pod` object, equals `LinkStep`. |
| DocumentSteps.InlineAcl | src/actors/document.ts:110-187 | On a `Pod` object, equals the ACL half of `ensureForRef`. |
| DocumentSteps.WriteInlineAcl | src/actors/document.ts:117-184 | On a `Pod` object, equals `InlineAclWrite`. |
| DocumentSteps.CreateForRef | src/actors/document.ts:93-188 | On a `Pod` object, equals `CreateForRefSpec`. |
| ContainerSteps.FoundOnSpec | src/actors/container.ts:62-74 | A rejection passes through. It yields an IRI exactly when the settled Subject has the predicate, and that IRI is one of its objects. |
| ContainerSteps.DropTrailingSlash | src/actors/container.ts:89 | Removes one trailing `/` when present, and leaves the string unchanged otherwise. |
| ContainerSteps.DropLeadingSlash | src/actors/container.ts:93 | Removes one leading `/` when present, and leaves the string unchanged otherwise. |
| ContainerSteps.ChildRef | src/actors/container.ts:87-95 | The child Container's IRI always ends in `/`. |
| ContainerSteps.ChildRefParentSlash | src/actors/container.ts:87-95 | A parent IRI names the same child with or without its trailing slash. |
| ContainerSteps.ChildRefNameSlashes | src/actors/container.ts:87-95 | A name with leading or trailing slashes names the same child as without them. |
| ContainerSteps.ChildRefInParent | src/actors/container.ts:87-95 | A name without `/` gives a Container directly inside the parent. |
| ContainerSteps.EnsureInContainerSpec | src/actors/container.ts:79-130 | Keeps the invariant. A rejected or null parent passes through, and any success is the child's IRI. |
| ContainerSteps.EnsureInContainerFinds | src/actors/container.ts:97-104 | An existing child is returned after one fetch, and nothing is written. |
| ContainerSteps.ProbeOrCreate | src/actors/container.ts:97-112 | A Container found on the Pod, or else created, is named by the IRI asked for; the Pod stays consistent. |
| ContainerSteps.EnsureInContainerCreates | src/actors/container.ts:97-112 | A missing child goes through the dummy-document workaround after the fetch that missed it. |
| ContainerSteps.CreateContainer | src/actors/container.ts:106-129 | Keeps the invariant, and a success is the child IRI. Without a local document constructor, the dummy save fails and nothing is sent. |
| ContainerSteps.Materialise | src/actors/container.ts:106-112 | The requests are the save of `.dummy`, its DELETE, and the fetch of the Container, in that order. |
| ContainerSteps.MaterialiseMakes | src/actors/container.ts:106-112 | On a server that creates the parent of a written resource, the Container exists afterwards and the dummy does not. |
| ContainerSteps.CreateContainerMakes | src/actors/container.ts:106-129 | The Container exists afterwards, whatever the ACL step does. Empty settings settle with it, and every failure is an ACL failure. |
| ContainerSteps.ContainerAclStep | src/actors/container.ts:114-129 | Missing settings fail as a `TypeError`, and empty settings write nothing. A missing ACL location fails. Otherwise the step is `configureAcl`, and its failure passes through. |
| ContainerSteps.ContainerAclKeeps | src/actors/container.ts:114-129 | The ACL step removes no Document and fails only with its own three failures. |
| ContainerSteps.EnsureInContainer | src/actors/container.ts:79-130 | On a `Pod` object, equals `EnsureInContainerSpec`. |
| ContainerSteps.Create | src/actors/container.ts:106-129 | On a `Pod` object, equals `CreateContainer`. |
| ContainerSteps.ConfigureContainerAcl | src/actors/container.ts:114-127 | On a `Pod` object, equals `ContainerAclStep`. |
| PodStore.View | src/actors/document.ts:111 | A fetched or saved Document is marked as saved, carries the ACL location the server advertises, and keeps its statements. |
| PodStore.FetchStep | src/actors/document.ts:25-47 | Logs one fetch and fails exactly when the Pod has no Document at the IRI's Document part. |
| PodStore.CreateDocument | src/services/acl.ts:51-56 | A local empty Document exists exactly when the library provides one. |
| PodStore.MergeValues | src/actors/subject.ts:249 | After a save of some Subjects, those Subjects read as in the local copy, and every other Subject reads as stored before. |
| PodStore.ParentOfDummy | src/actors/container.ts:106-108 | The dummy written into a Container `c` lives directly in `c`. |
| PodStore.Written | src/actors/container.ts:106-108 | After a save, the Pod holds the Document. No Document is lost, and nothing changes except the Document and its parent Container. |
| PodStore.SaveStep | src/actors/document.ts:101 | Logs one save and keeps the invariant. The Document is stored and handed back as saved. |
| PodStore.DeleteState | src/actors/container.ts:110 | A DELETE keeps the invariant. |
| PodStore.NewDocRefIsNew | src/actors/document.ts:100 | A Document created in a Container never takes the name of a stored one. |
| PodStore.Pod.constructor | src/actors/document.ts:25-47 | A Pod holding the given Documents, with no requests sent yet. |
| PodStore.Pod.Fetch | src/actors/document.ts:25-47 | Equals `FetchStep` on the object's fields. |
| PodStore.Pod.Save | src/actors/document.ts:101 | Equals `SaveStep` on the object's fields and keeps `Valid`. |
| PodStore.Pod.Delete | src/actors/container.ts:110 | Equals `DeleteState` on the object's fields. |
| PodStore.Pod.CreateDocumentInContainer | src/actors/document.ts:100 | Returns an empty local Document under a name the server has not used. |
| AclModel.HasAclSettings | src/services/acl.ts:38-44 | Holds exactly when some group (public, agents, origins) is present. |
| AclModel.AddModes | src/services/acl.ts:76-87 | Mode writes keep the Document's identity and order. |
| AclModel.AddModesValues | src/services/acl.ts:76-87 | The mode writes add exactly the modes whose flag is `true`, to `acl:mode` on that Subject, and change nothing else. |
| AclModel.AddModesGrants | src/services/acl.ts:76-87 | Every mode whose flag is `true` is among the Subject's modes afterwards. |
| AclModel.ValuesSetRefs | src/services/acl.ts:72-74 | After the `setRef`s, each predicate they set holds only its last value, and every other statement is unchanged. |
| AclModel.RuleStep | src/services/acl.ts:65-87 | One entry's writes keep the Document's identity and add at most its rule Subject. |
| AclModel.RuleStepEstablishes | src/services/acl.ts:65-87 | After one entry's writes, its Subject is an authorization for the Document that names the entry's identity and grants its modes. |
| AclModel.RuleStepOther | src/services/acl.ts:65-87 | An entry's writes touch no other Subject. |
| AclModel.RuleStepKeepsModes | src/services/acl.ts:65-87 | An entry's writes never remove a mode from any Subject. |
| AclModel.RuleStepHeader | src/services/acl.ts:72-73 | After an entry's writes, its Subject's only type is `acl:Authorization` and its only `acl:accessTo` is the Document. |
| AclModel.RuleStepKeepsPair | src/services/acl.ts:72-74 | A single-valued statement on the reused Subject keeps its value, because the identity written there agrees with it. |
| AclModel.RuleStepPreservesSame | src/services/acl.ts:65-87 | A rule at the Subject an entry reuses is still a rule after the entry's writes. |
| AclModel.RuleStepPreserves | src/services/acl.ts:90-157 | A rule already in the Document survives a later entry's writes. |
| AclModel.FirstWithOrigin | src/services/acl.ts:127-135 | The first of the agent's Subjects whose `acl:origin` is the origin, or none when no such Subject exists. |
| AclModel.Choice | src/services/acl.ts:65-70 | A new ACL Document never reuses a Subject. A reused Subject already carries the entry's identity. |
| AclModel.ChoiceFindsRule | src/services/acl.ts:65-70 | On a saved ACL Document that holds an entry's rule, the entry reuses a Subject. |
| AclModel.ConfigureRules | src/services/acl.ts:63-157 | The rule writes keep the ACL Document's IRI, its saved mark and its ACL location. What they write is stated by the lemmas below. |
| AclModel.ConfigureRulesEstablishes | src/services/acl.ts:63-157 | Every public, agent and origin entry has its rule afterwards. |
| AclModel.ApplyEstablishes | src/services/acl.ts:63-157 | Every entry in any position keeps its rule to the end. |
| AclModel.ApplyPreserves | src/services/acl.ts:63-157 | A rule survives any sequence of entries. |
| AclModel.ApplyKeepsModes | src/services/acl.ts:63-157 | No entry removes a mode from any Subject. |
| AclModel.ApplyNewDocument | src/services/acl.ts:65-70 | On an ACL Document not yet on the Pod, each entry appends one new Subject after the existing ones. |
| AclModel.ApplyReuses | src/services/acl.ts:65-70 | On a saved ACL Document that already holds every entry's rule, no Subject is added. |
| AclModel.ConfigureRulesTwice | src/services/acl.ts:63-157 | Configuring the same settings again on the saved result adds no Subject. |
| AclModel.InlineStepGrants | src/actors/document.ts:129-153 | One inline step leaves an authorization for the Document that grants the entry's modes. |
| AclModel.InlineStepKeepsGrant | src/actors/document.ts:129-181 | A later inline step keeps an earlier grant. |
| AclModel.InlineApply | src/actors/document.ts:129-181 | The inline writes keep the ACL Document's IRI, its saved mark and its ACL location. |
| AclModel.InlineApplyGrants | src/actors/document.ts:129-181 | Every public and agent entry ends up with a grant of its modes. |
| AclModel.InlineApplyNamesNobody | src/actors/document.ts:129-181 | The inline writer never changes an `acl:agent` or `acl:agentClass` statement. |
| AclService.AclDocument | src/services/acl.ts:51-56 | Returns the fetched ACL Document, or a local one when the fetch fails. |
| AclService.ConfigureAclSpec | src/services/acl.ts:46-161 | Keeps the Pod invariant. |
| AclService.ConfigureAclFails | src/services/acl.ts:51-61 | Fails exactly when the Pod has no ACL Document and the library makes none. It then sends only the fetch. |
| AclService.ConfigureAclSaves | src/services/acl.ts:51-160 | A success is one fetch and one save, and the Pod then holds the ACL Document. |
| AclService.ConfigureAclGrants | src/services/acl.ts:63-160 | The ACL Document returned holds a rule for every public, agent and origin entry. |
| AclService.AgentRules | src/services/acl.ts:90-117 | The agents' `forEach` loop writes what the recursive definition writes. |
| AclService.OriginAgentRules | src/services/acl.ts:121-156 | The inner `forEach` over one origin's agents writes what the definition writes. |
| AclService.OriginRules | src/services/acl.ts:119-157 | The outer `forEach` over the origins writes what the definition writes. |
| AclService.RulesOf | src/services/acl.ts:63-157 | The three groups, in order, equal `ConfigureRules`. |
| AclService.ConfigureAcl | src/services/acl.ts:46-161 | On a `Pod` object, equals `ConfigureAclSpec`. |
| Descriptors.SubjectTag | src/descriptors/subject.ts:38-58 | The tag is a known Subject tag exactly when the descriptor is not an unknown one. |
| Descriptors.DocumentTag | src/descriptors/document.ts:15-85 | The tag is a known Document tag exactly when the descriptor is not an unknown one. |
| Descriptors.ContainerTag | src/descriptors/container.ts:14-46 | The tag is a known Container tag exactly when the descriptor is not an unknown one. |
| Descriptors.SubjectListTag | src/descriptors/subjectList.ts:7-16 | The tag is a known list tag exactly when the descriptor is not an unknown one. |
| Descriptors.IsSubjectFoundAt | src/actors/subject.ts:42 | The tag test holds exactly for the `IsFoundAt` case. |
| Descriptors.IsSubjectFoundOn | src/actors/subject.ts:44 | The tag test holds exactly for the `IsFoundOn` case. |
| Descriptors.IsSubjectEnsuredOn | src/actors/subject.ts:46 | The tag test holds exactly for the `IsEnsuredOn` case. |
| Descriptors.IsSubjectFoundIn | src/descriptors/subject.ts:38-47 | The tag test holds exactly for the `IsFoundIn` case. |
| Descriptors.IsSubjectEnsuredIn | src/descriptors/subject.ts:49-58 | The tag test holds exactly for the `IsEnsuredIn` case. |
| Descriptors.IsSubjectByRef | src/descriptors/subject.ts:10-18 | A descriptor tagged `ByRef` is an unknown descriptor: no resolver branch handles it. |
| Descriptors.IsDocByRef | src/descriptors/document.ts:15-19 | The tag test holds exactly for the `ByRef` case. |
| Descriptors.IsDocIsAclFor | src/descriptors/document.ts:28-32 | The tag test holds exactly for the `IsAclFor` case. |
| Descriptors.IsDocIsFoundOn | src/descriptors/document.ts:42-46 | The tag test holds exactly for the `IsFoundOn` case. |
| Descriptors.IsDocIsEnsuredOn | src/descriptors/document.ts:81-85 | The tag test holds exactly for the `IsEnsuredOn` case. |
| Descriptors.IsContainerFoundAt | src/actors/container.ts:36 | The tag test holds exactly for the `IsFoundAt` case. |
| Descriptors.IsContainerFoundOn | src/descriptors/container.ts:28-32 | The tag test holds exactly for the `IsFoundOn` case. |
| Descriptors.IsContainerContainedIn | src/descriptors/container.ts:42-46 | The tag test holds exactly for the `IsContainedIn` case. |
| Descriptors.IsListFoundIn | src/descriptors/subjectList.ts:12-16 | The tag test holds exactly for the `IsFoundIn` case. |
| Descriptors.DocumentTagsExclusive | src/actors/document.ts:32-42 | Exactly one Document tag test holds for a known descriptor, and none for an unknown one. |
| Descriptors.ContainerTagsExclusive | src/actors/container.ts:36-44 | Exactly one Container tag test holds for a known descriptor, and none for an unknown one. |
| Descriptors.SubjectTagsExclusive | src/actors/subject.ts:42-54 | Exactly one Subject tag test holds for a known descriptor, and none for an unknown one. |
| Descriptors.VirtualSubject.constructor | src/virtual/subject.ts:49-57 | A fresh handle wraps the descriptor with an empty slot. |
| Descriptors.VirtualDocument.constructor | src/virtual/document.ts:36-41 | A fresh handle wraps the descriptor with an empty slot. |
| Descriptors.VirtualContainer.constructor | src/virtual/container.ts:28-33 | A fresh handle wraps the descriptor with an empty slot. |
| Descriptors.VirtualSubjectList.constructor | src/virtual/subjectList.ts:54-64 | A fresh handle wraps the descriptor with an empty slot. |
| Virtual.IsFoundAt | src/virtual/subject.ts:49-57 | Builds an `IsFoundAt` descriptor for the IRI. |
| Virtual.IsFoundOn | src/virtual/subject.ts:65-77 | Builds an `IsFoundOn` descriptor for the source and predicate. |
| Virtual.IsEnsuredOn | src/virtual/subject.ts:89-101 | Builds an `IsEnsuredOn` descriptor for the source and predicate. |
| Virtual.IsFoundIn | src/virtual/subject.ts:183-193 | A bare `IsFoundIn` builder over the Document. |
| Virtual.IsEnsuredIn | src/virtual/subject.ts:277-289 | A bare `IsEnsuredIn` builder over the Document. |
| Virtual.Complete | src/virtual/subject.ts:106-151 | Completing a bare builder keeps its kind and Document and sets the locator. |
| Virtual.WithRefFromBare | src/virtual/subject.ts:106-133 | The first `withRef` starts a list holding just that pair and keeps the kind and the Document. |
| Virtual.WithRef | src/virtual/subject.ts:106-133 | A later `withRef` appends exactly one pair and keeps the kind and the Document. |
| Virtual.AsRef | src/virtual/subject.ts:137-151 | `asRef` gives a locator by IRI alone and keeps the kind and the Document. |
| Virtual.ChainRefsKeepsOrder | src/virtual/subject.ts:106-133 | Chained `withRef` calls give a locator listing the pairs in call order. |
| Virtual.ListIsFoundIn | src/virtual/subjectList.ts:54-64 | Builds an `IsFoundIn` list descriptor with no pairs. |
| Virtual.ListWithRef | src/virtual/subjectList.ts:35-53 | The list `withRef` appends exactly one pair and keeps the Document. |
| Virtual.ListIsFoundOn | src/virtual/subjectList.ts:66-78 | Builds an `IsFoundOn` list descriptor, a tag the list resolver has no branch for. |
| Virtual.ListChainKeepsOrder | src/virtual/subjectList.ts:35-64 | Chained list `withRef` calls list the pairs in call order. |
| Virtual.DocumentByRef | src/virtual/document.ts:36-41 | Builds a `ByRef` Document descriptor. |
| Virtual.DocumentIsAclFor | src/virtual/document.ts:43-48 | Builds an `IsAclFor` descriptor. |
| Virtual.DocumentIsFoundOn | src/virtual/document.ts:50-59 | Builds an `IsFoundOn` Document descriptor. |
| Virtual.DocumentIsEnsuredOn | src/virtual/document.ts:61-72 | Builds an `IsEnsuredOn` descriptor with its fallback Container and no `acl`. |
| Virtual.ContainerByRef | src/virtual/container.ts:28-33 | Writes the tag `ByRef`, which none of the Container resolver's tag tests accept. |
| Virtual.ContainerIsFoundOn | src/virtual/container.ts:35-44 | Builds an `IsFoundOn` Container descriptor. |
| Serialise.OtherObject | src/virtual/serialise.ts:5-18 | An unknown descriptor serialises to all its properties, with `type` set to the tag. |
| Serialise.SerialiseSubject | src/virtual/serialise.ts:5-18 | A Subject handle becomes an object with exactly its descriptor's properties and its tag. |
| Serialise.SerialiseDocument | src/virtual/serialise.ts:5-18 | A Document handle becomes an object with exactly its descriptor's properties and its tag. |
| Serialise.SerialiseContainer | src/virtual/serialise.ts:5-18 | A Container handle becomes an object with exactly its descriptor's properties and its tag. |
| Serialise.SerialiseSubjectList | src/virtual/serialise.ts:5-18 | A list handle becomes an object with exactly its descriptor's properties and its tag. |
| Serialise.EnsuredOnObjectExact | src/virtual/serialise.ts:5-18 | Two `IsEnsuredOn` objects are equal exactly when all their parts are equal. |
| Serialise.ContainedInObjectExact | src/virtual/serialise.ts:5-18 | Two `IsContainedIn` objects are equal exactly when all their parts are equal. |
| Serialise.OtherObjectExact | src/virtual/serialise.ts:5-18 | Two unknown descriptors serialise alike exactly when their tags and their other properties agree. |
| Serialise.SerialiseSubjectExact | src/virtual/serialise.ts:5-26 | Two Subject handles serialise alike exactly when they describe the same tree. |
| Serialise.SerialiseDocumentExact | src/virtual/serialise.ts:5-26 | Two Document handles serialise alike exactly when they describe the same tree. |
| Serialise.SerialiseContainerExact | src/virtual/serialise.ts:5-26 | Two Container handles serialise alike exactly when they describe the same tree. |
| Serialise.SerialiseNested | src/virtual/serialise.test.ts:36-61 | An `IsEnsuredOn` Document that carries empty ACL settings, over an `IsFoundAt` Subject and an `IsFoundAt` Container, serialises to the nested plain object of the test. |

## Left out

- Network I/O is replaced by the Pod value. HTTP, authentication and response parsing are not modelled, and a failed fetch is the single failure `FetchFailed` whatever the cause.
- The RDF library (`tripledoc`) is not part of this model. `rdf.dfy` keeps only the operations the core calls. A fetched `Subject` is a snapshot of its Document, so the in-memory aliasing between Subjects of one Document is not modelled.
- Resolutions run one after another. Two resolutions of the same handle that interleave while its promise is pending are not modelled; the model settles a handle before any other resolution begins.
- IRIs are strings. URL parsing is reduced to splitting at the first `#` (`DocumentPart`, `Fragment`).
- The server's choice of names (`addSubject` identifiers, names in `createDocumentInContainer`) is a deterministic fresh name (`FreshId`, `NewDocRef`) in place of random or server-picked ones.
- A Solid server creates only the immediate parent Container of a written resource in this model, which is what the dummy-document workaround relies on.
- `ensureInContainer` passes a fourth argument `{ default: true }` to `configureAcl`. The `configureAcl` of `src/services/acl.ts:46-50` takes three parameters, so the argument has no effect and is dropped.
- Thrown `TypeError`s (a property read on `undefined`, a `save` of `undefined`) are `Failure` cases (`UndefinedAcl`, `SaveOfUndefined`). Error message wording is not modelled.
- The Container builder's `byRef` writes the tag `ByRef`, for which the Container resolver has no branch, so such a handle rejects with `UnknownType`. The Subject List builder's `isFoundOn` has no fetcher either and rejects the same way. Both follow the code.
- The Container descriptor module declares no `internal_isIsFoundAt` test, although the resolver dispatches on `IsFoundAt`. The model follows the resolver. The `acl` property `ensureInContainer` reads is not declared on the `IsContainedIn` descriptor, and is modelled as an optional field.
- The document resolver's inline ACL writer skips origins, as the code does (its `TODO`).
- The `isEnsuredOn` Document builder (`src/virtual/document.ts:61-72`) sets no `acl` property. The nested serialisation test expects `acl: {}`, which only a descriptor carrying empty settings produces. The model follows the builder, and `SerialiseNested` states the test's shape for a descriptor that carries the settings.
- SubjectSteps.EnsureWithRefsCreates: states that the new Subject matches every pair only when the pairs name distinct predicates, because a repeated predicate makes `getRef` return its first object.
- Resolvers.EnsureForRef: does not state that the fallback Container handle stays unresolved when the Subject already has a link, because that handle may also be nested in the Subject's own descriptor tree.
- Resolvers.SelectDocument: states the `ByRef` and unknown-tag branches outright. The other branches are stated by the fetcher each one runs (`GetFromAcl`, `GetForRef`, `EnsureForRef`), against the Pod state after the nested resolution.
- Resolvers.SelectContainer: for `IsContainedIn` it states the parent's pass-through and the child's IRI. The requests and Pod state of that branch are stated by `Resolvers.EnsureInContainer`, against the Pod state after the parent's resolution.
- PodStore.SaveStep: a save always succeeds. A server that refuses a save (`src/actors/subject.ts:118`, `src/actors/subject.ts:249`, `src/actors/document.ts:101-108`, `src/actors/container.ts:106`, `src/services/acl.ts:160`) is not modelled, so the rejection paths after a save are not modelled. Neither are the Documents left behind when a later save fails. ContainerSteps.CreateContainerMakes and ContainerSteps.ContainerAclKeeps hold only because saves cannot fail.
- Resolvers.SelectSubject: the `IsEnsuredOn` and `IsEnsuredIn` branches are stated by `EnsureOnSubject` and `EnsureWithRefs`, against the Pod state after the nested resolution.
