/**
 * Access Control List settings and what provisioning them writes into an ACL document
 * (Web Access Control): one `acl:Authorization` per public, agent or origin+agent entry,
 * each granting the modes whose flag is set.
 */
module AclModel {
  import opened Wrappers
  import opened Rdf
  import opened Vocab
  import PodStore

  /** The four access flags of one entry; an absent flag is `None`, as an undefined property. */
  datatype Modes = Modes(read: Option<bool>, append: Option<bool>, write: Option<bool>, control: Option<bool>)

  /**
   * The settings object: optional public modes, optional modes per agent, optional modes
   * per origin and agent. Keyed objects become sequences in key order.
   */
  datatype AclSettings = AclSettings(
    public: Option<Modes>,
    agents: Option<seq<(Ref, Modes)>>,
    origins: Option<seq<(Ref, seq<(Ref, Modes)>)>>)

  /** Settings that ask for no access control at all. */
  const NoAcl := AclSettings(None, None, None)

  /** `hasAclSettings` (and `configuresAcl` of the document resolver): some group is present. */
  predicate HasAclSettings(s: AclSettings)
    ensures HasAclSettings(s) <==> s != NoAcl
  {
    s.public.Some? || s.origins.Some? || s.agents.Some?
  }

  /** A flag is set when it is `true`; `false` and an absent flag alike grant nothing. */
  predicate Truthy(f: Option<bool>) {
    f == Some(true)
  }

  /** The mode objects an entry grants, in the order the flags are tested. */
  function GrantedModes(m: Modes): seq<Ref> {
    (if Truthy(m.read) then [AclRead] else []) + (if Truthy(m.append) then [AclAppend] else [])
    + (if Truthy(m.write) then [AclWrite] else []) + (if Truthy(m.control) then [AclControl] else [])
  }

  /** `addRef(acl:mode, mode)` on `s` when `flag` is set. */
  function AddMode(d: Doc, s: Ref, flag: Option<bool>, mode: Ref): (r: Doc)
    ensures r.ref == d.ref && r.saved == d.saved && r.acl == d.acl
    ensures s in d.props ==> r.order == d.order
  {
    if Truthy(flag) then AddRef(d, s, AclMode, mode) else d
  }

  /** `addRef(acl:mode, …)` on `s` for every flag that is set, read first and control last. */
  function AddModes(d: Doc, s: Ref, m: Modes): (r: Doc)
    ensures r.ref == d.ref && r.saved == d.saved && r.acl == d.acl
    ensures s in d.props ==> r.order == d.order
  {
    AddMode(AddMode(AddMode(AddMode(d, s, m.read, AclRead), s, m.append, AclAppend), s, m.write, AclWrite), s, m.control, AclControl)
  }

  /** One mode write adds that mode to `s`'s `acl:mode` when its flag is set, and changes nothing else. */
  lemma AddModeValues(d: Doc, s: Ref, flag: Option<bool>, mode: Ref, s': Ref, p: Ref)
    ensures (s' != s || p != AclMode) ==> Values(AddMode(d, s, flag, mode), s', p) == Values(d, s', p)
    ensures forall x :: x in Values(AddMode(d, s, flag, mode), s', p) <==>
      x in Values(d, s', p) || (s' == s && p == AclMode && Truthy(flag) && x == mode)
  {
    if Truthy(flag) {
      ValuesAddRef(d, s, AclMode, mode, s', p);
    }
  }

  /** Mode writes add exactly the granted modes, to `s`'s `acl:mode`, and change nothing else. */
  lemma AddModesValues(d: Doc, s: Ref, m: Modes, s': Ref, p: Ref)
    ensures (s' != s || p != AclMode) ==> Values(AddModes(d, s, m), s', p) == Values(d, s', p)
    ensures forall x :: x in Values(AddModes(d, s, m), s', p) <==>
      x in Values(d, s', p) || (s' == s && p == AclMode && x in GrantedModes(m))
  {
    var d1 := AddMode(d, s, m.read, AclRead);
    var d2 := AddMode(d1, s, m.append, AclAppend);
    var d3 := AddMode(d2, s, m.write, AclWrite);
    AddModeValues(d, s, m.read, AclRead, s', p);
    AddModeValues(d1, s, m.append, AclAppend, s', p);
    AddModeValues(d2, s, m.write, AclWrite, s', p);
    AddModeValues(d3, s, m.control, AclControl, s', p);
    GrantedModesMembers(m);
  }

  lemma GrantedModesMembers(m: Modes)
    ensures forall x :: x in GrantedModes(m) <==>
      (Truthy(m.read) && x == AclRead) || (Truthy(m.append) && x == AclAppend)
      || (Truthy(m.write) && x == AclWrite) || (Truthy(m.control) && x == AclControl)
  {
  }

  /** Every granted mode is among `s`'s modes after the mode writes. */
  lemma AddModesGrants(d: Doc, s: Ref, m: Modes)
    ensures forall x | x in GrantedModes(m) :: x in Values(AddModes(d, s, m), s, AclMode)
  {
    AddModesValues(d, s, m, s, AclMode);
  }

  /** `setRef` of every pair of `ps` on `s`, in order. */
  function SetRefs(d: Doc, s: Ref, ps: seq<Pair>): (r: Doc)
    ensures r.ref == d.ref && r.saved == d.saved && r.acl == d.acl
    ensures r.order == if ps == [] then d.order else AddSubject(d, s).order
  {
    if ps == [] then d
    else
      var m := SetRefs(d, s, ps[..|ps| - 1]);
      SetRef(m, s, ps[|ps| - 1].pred, ps[|ps| - 1].obj)
  }

  /** The object of the last pair of `ps` with predicate `p`. */
  function LastValue(ps: seq<Pair>, p: Ref): (v: Option<Ref>)
    ensures v.Some? ==> Pair(p, v.value) in ps
    ensures v.None? ==> forall x | x in ps :: x.pred != p
  {
    if ps == [] then None
    else if ps[|ps| - 1].pred == p then Some(ps[|ps| - 1].obj)
    else
      assert forall x | x in ps :: x in ps[..|ps| - 1] || x == ps[|ps| - 1];
      LastValue(ps[..|ps| - 1], p)
  }

  /** After `setRef`s, a predicate they set has its last value only; every other statement is as before. */
  lemma {:induction false} ValuesSetRefs(d: Doc, s: Ref, ps: seq<Pair>, s': Ref, p: Ref)
    ensures Values(SetRefs(d, s, ps), s', p) ==
      if s' == s && LastValue(ps, p).Some? then [LastValue(ps, p).value] else Values(d, s', p)
  {
    if ps != [] {
      var init, last := ps[..|ps| - 1], ps[|ps| - 1];
      var m := SetRefs(d, s, init);
      assert SetRefs(d, s, ps) == SetRef(m, s, last.pred, last.obj);
      assert LastValue(ps, p) == if last.pred == p then Some(last.obj) else LastValue(init, p);
      ValuesSetRefs(d, s, init, s', p);
      ValuesSetRef(m, s, last.pred, last.obj, s', p);
    }
  }

  /** An authorization rule: subject `s` is an `acl:Authorization` for `docRef`, carries each pair of
      `identity` as its only value for that predicate, and grants at least the modes of `m`.
      It says nothing about predicates outside `identity`: the agent search in
      src/services/acl.ts:93-98 takes any Subject whose `acl:agent` is the agent, so a Subject
      that also carries an `acl:origin` can be reused and then keeps restricting the agent's
      access to that origin; none of the searches asks for a matching `acl:accessTo` either,
      they overwrite it. */
  ghost predicate Rule(d: Doc, s: Ref, docRef: Ref, identity: seq<Pair>, m: Modes) {
    && s in d.order
    && Values(d, s, RdfType) == [AclAuthorization]
    && Values(d, s, AclAccessTo) == [docRef]
    && (forall k | 0 <= k < |identity| :: Values(d, s, identity[k].pred) == [identity[k].obj])
    && (forall x | x in GrantedModes(m) :: x in Values(d, s, AclMode))
  }

  /** An identity names distinct predicates, none of them the ones every rule sets. */
  ghost predicate IdentityOk(identity: seq<Pair>) {
    && (forall i, j | 0 <= i < j < |identity| :: identity[i].pred != identity[j].pred)
    && (forall x | x in identity :: x.pred != RdfType && x.pred != AclAccessTo && x.pred != AclMode)
  }

  /** The subject a rule step writes to: the one found, or a new one. */
  function RuleSubject(d: Doc, choice: Option<Ref>): Ref {
    if choice.Some? then choice.value else FreshId(d)
  }

  /** The statements every rule sets, followed by the rule's identity. */
  function RulePairs(docRef: Ref, identity: seq<Pair>): seq<Pair> {
    [Pair(RdfType, AclAuthorization), Pair(AclAccessTo, docRef)] + identity
  }

  /**
   * One step of `configureAcl`: on the subject found (or a new one), `setRef` type, accessTo
   * and the identity pairs, then `addRef` the granted modes.
   */
  function RuleStep(d: Doc, docRef: Ref, choice: Option<Ref>, identity: seq<Pair>, m: Modes): (r: Doc)
    ensures r.ref == d.ref && r.saved == d.saved && r.acl == d.acl
    ensures r.order == AddSubject(d, RuleSubject(d, choice)).order
  {
    var s := RuleSubject(d, choice);
    var d1 := SetRefs(d, s, RulePairs(docRef, identity));
    assert s in d1.order;
    AddModes(d1, s, m)
  }

  /** No two pairs of `ps` share a predicate. */
  ghost predicate DistinctPreds(ps: seq<Pair>) {
    forall i, j | 0 <= i < j < |ps| :: ps[i].pred != ps[j].pred
  }

  /** With distinct predicates, the last value of a pair's predicate is that pair's object. */
  lemma {:induction false} LastValueDistinct(ps: seq<Pair>, i: nat)
    requires DistinctPreds(ps) && i < |ps|
    ensures LastValue(ps, ps[i].pred) == Some(ps[i].obj)
  {
    if i < |ps| - 1 {
      assert ps[..|ps| - 1][i] == ps[i];
      LastValueDistinct(ps[..|ps| - 1], i);
    }
  }

  lemma RulePairsDistinct(docRef: Ref, identity: seq<Pair>)
    requires IdentityOk(identity)
    ensures DistinctPreds(RulePairs(docRef, identity))
  {
    var ps := RulePairs(docRef, identity);
    forall i, j | 0 <= i < j < |ps|
      ensures ps[i].pred != ps[j].pred
    {
      if i >= 2 {
        assert ps[i] == identity[i - 2] && ps[j] == identity[j - 2];
      } else if j >= 2 {
        assert ps[j] == identity[j - 2];
        assert ps[j] in identity;
      }
    }
  }

  /** After a rule step, each pair of the rule is its predicate's only value on the rule's subject. */
  lemma RuleStepPairs(d: Doc, docRef: Ref, choice: Option<Ref>, identity: seq<Pair>, m: Modes, i: nat)
    requires IdentityOk(identity) && i < |RulePairs(docRef, identity)|
    ensures var x := RulePairs(docRef, identity)[i];
      Values(RuleStep(d, docRef, choice, identity, m), RuleSubject(d, choice), x.pred) == [x.obj]
  {
    var x := RulePairs(docRef, identity)[i];
    RulePairLast(docRef, identity, i);
    RuleStepSame(d, docRef, choice, identity, m, x.pred);
  }

  /** After a rule step, the rule's subject is an authorization for the document and nothing else. */
  lemma RuleStepHeader(d: Doc, docRef: Ref, choice: Option<Ref>, identity: seq<Pair>, m: Modes)
    requires IdentityOk(identity)
    ensures var r := RuleStep(d, docRef, choice, identity, m);
      Values(r, RuleSubject(d, choice), RdfType) == [AclAuthorization] &&
      Values(r, RuleSubject(d, choice), AclAccessTo) == [docRef]
  {
    RuleStepPairs(d, docRef, choice, identity, m, 0);
    RuleStepPairs(d, docRef, choice, identity, m, 1);
  }

  /** Pair `i` of a rule is not a mode, and no later pair overrides it. */
  lemma RulePairLast(docRef: Ref, identity: seq<Pair>, i: nat)
    requires IdentityOk(identity) && i < |RulePairs(docRef, identity)|
    ensures var ps := RulePairs(docRef, identity);
      ps[i].pred != AclMode && LastValue(ps, ps[i].pred) == Some(ps[i].obj)
  {
    var ps := RulePairs(docRef, identity);
    RulePairsDistinct(docRef, identity);
    LastValueDistinct(ps, i);
    if i >= 2 {
      assert ps[i] == identity[i - 2];
    }
  }

  /** After a rule step, the rule's subject holds every mode the entry grants. */
  lemma RuleStepGrants(d: Doc, docRef: Ref, choice: Option<Ref>, identity: seq<Pair>, m: Modes)
    ensures forall x | x in GrantedModes(m) ::
      x in Values(RuleStep(d, docRef, choice, identity, m), RuleSubject(d, choice), AclMode)
  {
    var s := RuleSubject(d, choice);
    var ps := RulePairs(docRef, identity);
    assert RuleStep(d, docRef, choice, identity, m) == AddModes(SetRefs(d, s, ps), s, m);
    AddModesGrants(SetRefs(d, s, ps), s, m);
  }

  /** After a rule step, the rule's subject carries its identity. */
  lemma RuleStepIdentity(d: Doc, docRef: Ref, choice: Option<Ref>, identity: seq<Pair>, m: Modes)
    requires IdentityOk(identity)
    ensures forall k | 0 <= k < |identity| ::
      Values(RuleStep(d, docRef, choice, identity, m), RuleSubject(d, choice), identity[k].pred) == [identity[k].obj]
  {
    var ps := RulePairs(docRef, identity);
    forall k | 0 <= k < |identity|
      ensures Values(RuleStep(d, docRef, choice, identity, m), RuleSubject(d, choice), identity[k].pred) == [identity[k].obj]
    {
      assert ps[k + 2] == identity[k];
      RuleStepPairs(d, docRef, choice, identity, m, k + 2);
    }
  }

  /** A rule step leaves a rule at the subject it wrote to. */
  lemma RuleStepEstablishes(d: Doc, docRef: Ref, choice: Option<Ref>, identity: seq<Pair>, m: Modes)
    requires IdentityOk(identity)
    ensures Rule(RuleStep(d, docRef, choice, identity, m), RuleSubject(d, choice), docRef, identity, m)
  {
    var s := RuleSubject(d, choice);
    assert s in RuleStep(d, docRef, choice, identity, m).order by {
      assert s in AddSubject(d, s).props;
    }
    RuleStepPairs(d, docRef, choice, identity, m, 0);
    RuleStepPairs(d, docRef, choice, identity, m, 1);
    RuleStepIdentity(d, docRef, choice, identity, m);
    RuleStepGrants(d, docRef, choice, identity, m);
  }

  /** The rule subject of a step is in the document afterwards, and no subject is dropped. */
  lemma RuleStepOrder(d: Doc, docRef: Ref, choice: Option<Ref>, identity: seq<Pair>, m: Modes)
    ensures RuleSubject(d, choice) in RuleStep(d, docRef, choice, identity, m).order
    ensures forall x | x in d.order :: x in RuleStep(d, docRef, choice, identity, m).order
  {
    var t := RuleSubject(d, choice);
    assert t in AddSubject(d, t).props;
  }

  /** A rule step touches no subject but its own. */
  lemma RuleStepOther(d: Doc, docRef: Ref, choice: Option<Ref>, identity: seq<Pair>, m: Modes, s: Ref, p: Ref)
    requires s != RuleSubject(d, choice)
    ensures Values(RuleStep(d, docRef, choice, identity, m), s, p) == Values(d, s, p)
  {
    var t := RuleSubject(d, choice);
    var ps := RulePairs(docRef, identity);
    assert RuleStep(d, docRef, choice, identity, m) == AddModes(SetRefs(d, t, ps), t, m);
    ValuesSetRefs(d, t, ps, s, p);
    AddModesValues(SetRefs(d, t, ps), t, m, s, p);
  }

  /** On its own subject, a rule step sets the predicates it names and leaves the others. */
  lemma RuleStepSame(d: Doc, docRef: Ref, choice: Option<Ref>, identity: seq<Pair>, m: Modes, p: Ref)
    requires p != AclMode
    ensures var v := LastValue(RulePairs(docRef, identity), p);
      Values(RuleStep(d, docRef, choice, identity, m), RuleSubject(d, choice), p) ==
        if v.Some? then [v.value] else Values(d, RuleSubject(d, choice), p)
  {
    var t := RuleSubject(d, choice);
    var ps := RulePairs(docRef, identity);
    assert RuleStep(d, docRef, choice, identity, m) == AddModes(SetRefs(d, t, ps), t, m);
    ValuesSetRefs(d, t, ps, t, p);
    AddModesValues(SetRefs(d, t, ps), t, m, t, p);
  }

  /** The pairs of a rule never set `acl:mode`. */
  lemma RulePairsNoMode(docRef: Ref, identity: seq<Pair>)
    requires IdentityOk(identity)
    ensures LastValue(RulePairs(docRef, identity), AclMode).None?
  {
    var ps := RulePairs(docRef, identity);
    forall x | x in ps
      ensures x.pred != AclMode
    {
      var i :| 0 <= i < |ps| && ps[i] == x;
      if i >= 2 {
        assert identity[i - 2] == x;
      }
    }
  }

  /** A rule step never takes a mode away from any subject. */
  lemma RuleStepKeepsModes(d: Doc, docRef: Ref, choice: Option<Ref>, identity: seq<Pair>, m: Modes, s: Ref)
    requires IdentityOk(identity)
    ensures forall x | x in Values(d, s, AclMode) :: x in Values(RuleStep(d, docRef, choice, identity, m), s, AclMode)
  {
    var t := RuleSubject(d, choice);
    var ps := RulePairs(docRef, identity);
    assert RuleStep(d, docRef, choice, identity, m) == AddModes(SetRefs(d, t, ps), t, m);
    RulePairsNoMode(docRef, identity);
    ValuesSetRefs(d, t, ps, s, AclMode);
    AddModesValues(SetRefs(d, t, ps), t, m, s, AclMode);
  }

  /** The subject a step picks already carries every pair of the step's identity. */
  ghost predicate CarriesIdentity(d: Doc, choice: Option<Ref>, identity: seq<Pair>) {
    choice.Some? ==>
      && choice.value in d.order
      && forall k | 0 <= k < |identity| :: identity[k].obj in Values(d, choice.value, identity[k].pred)
  }

  /** A rule elsewhere than the subject a step writes survives the step. */
  lemma RuleStepPreservesOther(d: Doc, docRef: Ref, choice: Option<Ref>, identity: seq<Pair>, m: Modes,
                               s: Ref, identity': seq<Pair>, m': Modes)
    requires IdentityOk(identity)
    requires s != RuleSubject(d, choice)
    requires Rule(d, s, docRef, identity', m')
    ensures Rule(RuleStep(d, docRef, choice, identity, m), s, docRef, identity', m')
  {
    var r := RuleStep(d, docRef, choice, identity, m);
    RuleStepOrder(d, docRef, choice, identity, m);
    RuleStepKeepsModes(d, docRef, choice, identity, m, s);
    RuleStepOther(d, docRef, choice, identity, m, s, RdfType);
    RuleStepOther(d, docRef, choice, identity, m, s, AclAccessTo);
    forall k | 0 <= k < |identity'|
      ensures Values(r, s, identity'[k].pred) == [identity'[k].obj]
    {
      RuleStepOther(d, docRef, choice, identity, m, s, identity'[k].pred);
    }
  }

  /** A statement of a rule at the subject a step writes keeps its value when the step's identity agrees with it. */
  lemma RuleStepKeepsPair(d: Doc, docRef: Ref, choice: Option<Ref>, identity: seq<Pair>, m: Modes, b: Pair)
    requires IdentityOk(identity) && choice.Some?
    requires CarriesIdentity(d, choice, identity)
    requires b.pred != RdfType && b.pred != AclAccessTo && b.pred != AclMode
    requires Values(d, choice.value, b.pred) == [b.obj]
    ensures Values(RuleStep(d, docRef, choice, identity, m), choice.value, b.pred) == [b.obj]
  {
    RuleStepSame(d, docRef, choice, identity, m, b.pred);
    PairKeptBy(d, RuleStep(d, docRef, choice, identity, m), choice.value, docRef, identity, b);
  }

  /** A document that rewrites a rule's pairs on `s`, where `s` already carries the identity, keeps `b`. */
  lemma PairKeptBy(d: Doc, r: Doc, s: Ref, docRef: Ref, identity: seq<Pair>, b: Pair)
    requires forall k | 0 <= k < |identity| :: identity[k].obj in Values(d, s, identity[k].pred)
    requires b.pred != RdfType && b.pred != AclAccessTo
    requires Values(d, s, b.pred) == [b.obj]
    requires var v := LastValue(RulePairs(docRef, identity), b.pred);
      Values(r, s, b.pred) == if v.Some? then [v.value] else Values(d, s, b.pred)
    ensures Values(r, s, b.pred) == [b.obj]
  {
    var v := LastValue(RulePairs(docRef, identity), b.pred);
    if v.Some? {
      var k := IdentityIndex(docRef, identity, b.pred);
      assert identity[k].obj in Values(d, s, identity[k].pred);
    }
  }

  /** A value a rule step sets for an identity predicate comes from the identity. */
  lemma IdentityIndex(docRef: Ref, identity: seq<Pair>, p: Ref) returns (k: nat)
    requires p != RdfType && p != AclAccessTo
    requires LastValue(RulePairs(docRef, identity), p).Some?
    ensures k < |identity| && identity[k] == Pair(p, LastValue(RulePairs(docRef, identity), p).value)
  {
    var ps := RulePairs(docRef, identity);
    var i :| 0 <= i < |ps| && ps[i] == Pair(p, LastValue(ps, p).value);
    k := i - 2;
  }

  /** A rule at the subject a step picks survives the step: its identity is rewritten with the same values. */
  lemma RuleStepPreservesSame(d: Doc, docRef: Ref, choice: Option<Ref>, identity: seq<Pair>, m: Modes,
                              identity': seq<Pair>, m': Modes)
    requires IdentityOk(identity) && IdentityOk(identity') && choice.Some?
    requires CarriesIdentity(d, choice, identity)
    requires Rule(d, choice.value, docRef, identity', m')
    ensures Rule(RuleStep(d, docRef, choice, identity, m), choice.value, docRef, identity', m')
  {
    var s := choice.value;
    RuleStepOrder(d, docRef, choice, identity, m);
    RuleStepHeader(d, docRef, choice, identity, m);
    RuleStepKeepsGranted(d, docRef, choice, identity, m, m');
    RuleStepKeepsIdentity(d, docRef, choice, identity, m, identity', m');
    RuleOf(RuleStep(d, docRef, choice, identity, m), s, docRef, identity', m');
  }

  /** The five facts that make a rule. */
  lemma RuleOf(r: Doc, s: Ref, docRef: Ref, identity: seq<Pair>, m: Modes)
    requires s in r.order
    requires Values(r, s, RdfType) == [AclAuthorization] && Values(r, s, AclAccessTo) == [docRef]
    requires forall k | 0 <= k < |identity| :: Values(r, s, identity[k].pred) == [identity[k].obj]
    requires forall x | x in GrantedModes(m) :: x in Values(r, s, AclMode)
    ensures Rule(r, s, docRef, identity, m)
  {
  }

  /** The modes a subject grants before a step it still grants after. */
  lemma RuleStepKeepsGranted(d: Doc, docRef: Ref, choice: Option<Ref>, identity: seq<Pair>, m: Modes, m': Modes)
    requires IdentityOk(identity) && choice.Some?
    requires forall x | x in GrantedModes(m') :: x in Values(d, choice.value, AclMode)
    ensures forall x | x in GrantedModes(m') :: x in Values(RuleStep(d, docRef, choice, identity, m), choice.value, AclMode)
  {
    RuleStepKeepsModes(d, docRef, choice, identity, m, choice.value);
  }

  /** The identity statements of a rule at the subject a step picks keep their values. */
  lemma RuleStepKeepsIdentity(d: Doc, docRef: Ref, choice: Option<Ref>, identity: seq<Pair>, m: Modes,
                              identity': seq<Pair>, m': Modes)
    requires IdentityOk(identity) && IdentityOk(identity') && choice.Some?
    requires CarriesIdentity(d, choice, identity)
    requires Rule(d, choice.value, docRef, identity', m')
    ensures forall k | 0 <= k < |identity'| ::
      Values(RuleStep(d, docRef, choice, identity, m), choice.value, identity'[k].pred) == [identity'[k].obj]
  {
    forall k | 0 <= k < |identity'|
      ensures Values(RuleStep(d, docRef, choice, identity, m), choice.value, identity'[k].pred) == [identity'[k].obj]
    {
      assert identity'[k] in identity';
      RuleStepKeepsPair(d, docRef, choice, identity, m, identity'[k]);
    }
  }

  /** Every rule survives a step whose picked subject carries the step's identity. */
  lemma RuleStepPreserves(d: Doc, docRef: Ref, choice: Option<Ref>, identity: seq<Pair>, m: Modes,
                          s: Ref, identity': seq<Pair>, m': Modes)
    requires IdentityOk(identity) && IdentityOk(identity')
    requires CarriesIdentity(d, choice, identity)
    requires Rule(d, s, docRef, identity', m')
    ensures Rule(RuleStep(d, docRef, choice, identity, m), s, docRef, identity', m')
  {
    if s != RuleSubject(d, choice) {
      RuleStepPreservesOther(d, docRef, choice, identity, m, s, identity', m');
    } else {
      RuleStepPreservesSame(d, docRef, choice, identity, m, identity', m');
    }
  }

  /** One entry of the settings: public access, an agent's access, or an agent's access from an origin. */
  datatype Entry =
    | PublicEntry(modes: Modes)
    | AgentEntry(agent: Ref, modes: Modes)
    | OriginEntry(origin: Ref, agent: Ref, modes: Modes)

  /** The statements that say whom an entry's rule is for, in the order they are set. */
  function Identity(e: Entry): (r: seq<Pair>)
    ensures IdentityOk(r)
  {
    match e
    case PublicEntry(_) => [Pair(AclAgentClass, FoafAgent)]
    case AgentEntry(agent, _) => [Pair(AclAgent, agent)]
    case OriginEntry(origin, agent, _) => [Pair(AclOrigin, origin), Pair(AclAgent, agent)]
  }

  /** The first of `ids` whose `acl:origin` reads `origin`. */
  function FirstWithOrigin(d: Doc, ids: seq<Ref>, origin: Ref): (r: Option<Ref>)
    ensures r.Some? ==> r.value in ids && GetRef(d, r.value, AclOrigin) == Some(origin)
    ensures r.None? ==> forall x | x in ids :: GetRef(d, x, AclOrigin) != Some(origin)
  {
    if ids == [] then None
    else if GetRef(d, ids[0], AclOrigin) == Some(origin) then Some(ids[0])
    else
      assert forall x | x in ids :: x == ids[0] || x in ids[1..];
      FirstWithOrigin(d, ids[1..], origin)
  }

  /**
   * The existing subject an entry reuses: on an ACL document already on the Pod, the first
   * subject with `acl:agentClass foaf:Agent` (public), with `acl:agent` the agent (agent), or
   * with that agent whose `acl:origin` is the origin (origin); never on a new ACL document.
   */
  function Choice(d: Doc, e: Entry): (r: Option<Ref>)
    ensures !d.saved ==> r.None?
    ensures CarriesIdentity(d, r, Identity(e))
  {
    if !d.saved then None
    else
      match e
      case PublicEntry(_) => FindSubject(d, AclAgentClass, FoafAgent)
      case AgentEntry(agent, _) => FindSubject(d, AclAgent, agent)
      case OriginEntry(origin, agent, _) =>
        var r := FirstWithOrigin(d, FindSubjects(d, AclAgent, agent), origin);
        assert r.Some? ==> origin in Values(d, r.value, AclOrigin);
        r
  }

  /** On an ACL document already on the Pod, an entry whose rule is there reuses a subject. */
  lemma ChoiceFindsRule(d: Doc, docRef: Ref, e: Entry, s: Ref)
    requires d.saved && Rule(d, s, docRef, Identity(e), e.modes)
    ensures Choice(d, e).Some?
  {
    var id := Identity(e);
    assert Values(d, s, id[0].pred) == [id[0].obj];
    if e.OriginEntry? {
      assert Values(d, s, id[1].pred) == [id[1].obj];
      assert s in FindSubjects(d, AclAgent, e.agent);
    }
  }

  /** One entry's step: reuse or add a subject and write the entry's rule on it. */
  function EntryStep(d: Doc, docRef: Ref, e: Entry): (r: Doc)
    ensures r.ref == d.ref && r.saved == d.saved && r.acl == d.acl
  {
    RuleStep(d, docRef, Choice(d, e), Identity(e), e.modes)
  }

  /** The steps of `es`, in order. */
  function Apply(d: Doc, docRef: Ref, es: seq<Entry>): (r: Doc)
    ensures r.ref == d.ref && r.saved == d.saved && r.acl == d.acl
  {
    if es == [] then d else EntryStep(Apply(d, docRef, es[..|es| - 1]), docRef, es[|es| - 1])
  }

  lemma {:induction false} ApplyAppend(d: Doc, docRef: Ref, es: seq<Entry>, e: Entry)
    ensures Apply(d, docRef, es + [e]) == EntryStep(Apply(d, docRef, es), docRef, e)
  {
    assert (es + [e])[..|es|] == es;
  }

  function AgentEntries(agents: seq<(Ref, Modes)>): (r: seq<Entry>)
    ensures |r| == |agents|
    ensures forall i | 0 <= i < |agents| :: r[i] == AgentEntry(agents[i].0, agents[i].1)
  {
    if agents == [] then [] else AgentEntries(agents[..|agents| - 1]) + [AgentEntry(agents[|agents| - 1].0, agents[|agents| - 1].1)]
  }

  function OriginAgentEntries(origin: Ref, agents: seq<(Ref, Modes)>): (r: seq<Entry>)
    ensures |r| == |agents|
    ensures forall i | 0 <= i < |agents| :: r[i] == OriginEntry(origin, agents[i].0, agents[i].1)
  {
    if agents == [] then [] else OriginAgentEntries(origin, agents[..|agents| - 1]) + [OriginEntry(origin, agents[|agents| - 1].0, agents[|agents| - 1].1)]
  }

  function OriginEntries(origins: seq<(Ref, seq<(Ref, Modes)>)>): seq<Entry> {
    if origins == [] then []
    else OriginEntries(origins[..|origins| - 1]) + OriginAgentEntries(origins[|origins| - 1].0, origins[|origins| - 1].1)
  }

  /** The entries of the settings in the order `configureAcl` visits them: public, agents, then origins and their agents. */
  function Entries(settings: AclSettings): seq<Entry> {
    PublicGroup(settings) + AgentGroup(settings) + OriginGroup(settings)
  }

  function PublicGroup(settings: AclSettings): seq<Entry> {
    if settings.public.Some? then [PublicEntry(settings.public.value)] else []
  }

  function AgentGroup(settings: AclSettings): seq<Entry> {
    if settings.agents.Some? then AgentEntries(settings.agents.value) else []
  }

  function OriginGroup(settings: AclSettings): seq<Entry> {
    if settings.origins.Some? then OriginEntries(settings.origins.value) else []
  }

  /** What `configureAcl` does to the ACL document before saving it. */
  function ConfigureRules(d: Doc, docRef: Ref, settings: AclSettings): (r: Doc)
    ensures r.ref == d.ref && r.saved == d.saved && r.acl == d.acl
  {
    Apply(d, docRef, Entries(settings))
  }

  /** The document holds a rule for the entry. */
  ghost predicate HasRule(d: Doc, docRef: Ref, e: Entry) {
    exists s :: Rule(d, s, docRef, Identity(e), e.modes)
  }

  /** A rule depends on the statements only, not on where the document came from. */
  lemma HasRuleView(srv: PodStore.Server, d: Doc, docRef: Ref, es: seq<Entry>)
    requires forall e | e in es :: HasRule(d, docRef, e)
    ensures forall e | e in es :: HasRule(PodStore.View(srv, d), docRef, e)
  {
    var v := PodStore.View(srv, d);
    forall e | e in es
      ensures HasRule(v, docRef, e)
    {
      var t :| Rule(d, t, docRef, Identity(e), e.modes);
      RuleSameStatements(d, v, t, docRef, Identity(e), e.modes);
    }
  }

  lemma RuleSameStatements(d: Doc, v: Doc, t: Ref, docRef: Ref, identity: seq<Pair>, m: Modes)
    requires v.order == d.order && v.props == d.props
    requires Rule(d, t, docRef, identity, m)
    ensures Rule(v, t, docRef, identity, m)
  {
    assert forall p :: Values(v, t, p) == Values(d, t, p);
  }

  /** Every entry applied, in any position, has its rule in the result. */
  lemma {:induction false} ApplyEstablishes(d: Doc, docRef: Ref, es: seq<Entry>)
    ensures forall i | 0 <= i < |es| :: HasRule(Apply(d, docRef, es), docRef, es[i])
  {
    if es != [] {
      var init, last := es[..|es| - 1], es[|es| - 1];
      var d0 := Apply(d, docRef, init);
      ApplyEstablishes(d, docRef, init);
      RuleStepEstablishes(d0, docRef, Choice(d0, last), Identity(last), last.modes);
      forall i | 0 <= i < |es|
        ensures HasRule(Apply(d, docRef, es), docRef, es[i])
      {
        if i < |es| - 1 {
          assert init[i] == es[i];
          var s :| Rule(d0, s, docRef, Identity(es[i]), es[i].modes);
          RuleStepPreserves(d0, docRef, Choice(d0, last), Identity(last), last.modes, s, Identity(es[i]), es[i].modes);
        }
      }
    }
  }

  /** After `configureAcl`'s writes, every public, agent and origin entry of the settings has its rule. */
  lemma ConfigureRulesEstablishes(d: Doc, docRef: Ref, settings: AclSettings)
    ensures forall e | e in Entries(settings) :: HasRule(ConfigureRules(d, docRef, settings), docRef, e)
  {
    ApplyEstablishes(d, docRef, Entries(settings));
  }

  /** A rule survives any sequence of steps. */
  lemma {:induction false} ApplyPreserves(d: Doc, docRef: Ref, es: seq<Entry>, s: Ref, identity: seq<Pair>, m: Modes)
    requires IdentityOk(identity) && Rule(d, s, docRef, identity, m)
    ensures Rule(Apply(d, docRef, es), s, docRef, identity, m)
  {
    if es != [] {
      var init, last := es[..|es| - 1], es[|es| - 1];
      var d0 := Apply(d, docRef, init);
      ApplyPreserves(d, docRef, init, s, identity, m);
      RuleStepPreserves(d0, docRef, Choice(d0, last), Identity(last), last.modes, s, identity, m);
    }
  }

  /** No step takes a mode away from any subject. */
  lemma {:induction false} ApplyKeepsModes(d: Doc, docRef: Ref, es: seq<Entry>, s: Ref)
    ensures forall x | x in Values(d, s, AclMode) :: x in Values(Apply(d, docRef, es), s, AclMode)
  {
    if es != [] {
      var init, last := es[..|es| - 1], es[|es| - 1];
      var d0 := Apply(d, docRef, init);
      ApplyKeepsModes(d, docRef, init, s);
      RuleStepKeepsModes(d0, docRef, Choice(d0, last), Identity(last), last.modes, s);
    }
  }

  /** On an ACL document not yet on the Pod, every entry adds a subject of its own after the existing ones. */
  lemma {:induction false} ApplyNewDocument(d: Doc, docRef: Ref, es: seq<Entry>)
    requires !d.saved
    ensures |Apply(d, docRef, es).order| == |d.order| + |es|
    ensures Apply(d, docRef, es).order[..|d.order|] == d.order
  {
    if es != [] {
      var init, last := es[..|es| - 1], es[|es| - 1];
      var d0 := Apply(d, docRef, init);
      ApplyNewDocument(d, docRef, init);
      assert Apply(d, docRef, es) == EntryStep(d0, docRef, last);
      EntryStepNew(d0, docRef, last);
      PrefixOfAppend(d0.order, FreshId(d0), d.order);
    }
  }

  lemma PrefixOfAppend(a: seq<Ref>, x: Ref, p: seq<Ref>)
    requires |p| <= |a| && a[..|p|] == p
    ensures (a + [x])[..|p|] == p
  {
    assert (a + [x])[..|p|] == a[..|p|];
  }

  /** On a document not yet on the Pod, a step appends one new subject. */
  lemma EntryStepNew(d: Doc, docRef: Ref, e: Entry)
    requires !d.saved
    ensures EntryStep(d, docRef, e).order == d.order + [FreshId(d)]
  {
    assert RuleSubject(d, Choice(d, e)) == FreshId(d);
  }

  /** On an ACL document on the Pod that already holds the rule of every entry, the steps add no subject. */
  lemma {:induction false} ApplyReuses(d: Doc, docRef: Ref, es: seq<Entry>)
    requires d.saved
    requires forall e | e in es :: HasRule(d, docRef, e)
    ensures Apply(d, docRef, es).order == d.order
  {
    if es != [] {
      var init, last := es[..|es| - 1], es[|es| - 1];
      var d0 := Apply(d, docRef, init);
      assert forall e | e in init :: e in es;
      ApplyReuses(d, docRef, init);
      assert last in es;
      var s :| Rule(d, s, docRef, Identity(last), last.modes);
      ApplyPreserves(d, docRef, init, s, Identity(last), last.modes);
      ChoiceFindsRule(d0, docRef, last, s);
      assert Choice(d0, last).value in d0.props;
    }
  }

  /** Provisioning the same settings again on the saved ACL document reuses every rule subject. */
  lemma ConfigureRulesTwice(d: Doc, docRef: Ref, settings: AclSettings)
    requires d.saved
    ensures var once := ConfigureRules(d, docRef, settings);
      ConfigureRules(once, docRef, settings).order == once.order
  {
    ConfigureRulesEstablishes(d, docRef, settings);
    ApplyReuses(ConfigureRules(d, docRef, settings), docRef, Entries(settings));
  }

  /** The entries the document resolver's own ACL writer visits: public and agents; origins are skipped. */
  function InlineEntries(settings: AclSettings): seq<Entry> {
    Entries(settings.(origins := None))
  }

  /**
   * The document resolver's own ACL step: reuse (on a saved ACL document) the first subject
   * with the entry's agentClass or agent statement, or add one, then `addRef` the type,
   * the accessTo and the granted modes. It writes no agentClass or agent statement.
   */
  function InlineStep(d: Doc, docRef: Ref, e: Entry): (r: Doc)
    ensures r.ref == d.ref && r.saved == d.saved && r.acl == d.acl
  {
    var t := RuleSubject(d, Choice(d, e));
    AddModes(AddRef(AddRef(d, t, RdfType, AclAuthorization), t, AclAccessTo, docRef), t, e.modes)
  }

  function InlineApply(d: Doc, docRef: Ref, es: seq<Entry>): (r: Doc)
    ensures r.ref == d.ref && r.saved == d.saved && r.acl == d.acl
  {
    if es == [] then d else InlineStep(InlineApply(d, docRef, es[..|es| - 1]), docRef, es[|es| - 1])
  }

  /** What an inline ACL rule amounts to: an authorization for the document granting the modes, naming nobody in particular. */
  ghost predicate InlineGrant(d: Doc, s: Ref, docRef: Ref, m: Modes) {
    && s in d.order
    && AclAuthorization in Values(d, s, RdfType)
    && docRef in Values(d, s, AclAccessTo)
    && (forall x | x in GrantedModes(m) :: x in Values(d, s, AclMode))
  }

  ghost predicate HasInlineGrant(d: Doc, docRef: Ref, m: Modes) {
    exists s :: InlineGrant(d, s, docRef, m)
  }

  /** An inline step only adds statements, and only type, accessTo and mode ones. */
  lemma InlineStepValues(d: Doc, docRef: Ref, e: Entry, s: Ref, p: Ref)
    ensures forall x | x in Values(d, s, p) :: x in Values(InlineStep(d, docRef, e), s, p)
    ensures p != RdfType && p != AclAccessTo && p != AclMode ==> Values(InlineStep(d, docRef, e), s, p) == Values(d, s, p)
  {
    var t := RuleSubject(d, Choice(d, e));
    var d1 := AddRef(d, t, RdfType, AclAuthorization);
    var d2 := AddRef(d1, t, AclAccessTo, docRef);
    ValuesAddRef(d, t, RdfType, AclAuthorization, s, p);
    ValuesAddRef(d1, t, AclAccessTo, docRef, s, p);
    AddModesValues(d2, t, e.modes, s, p);
  }

  lemma InlineStepGrants(d: Doc, docRef: Ref, e: Entry)
    ensures InlineGrant(InlineStep(d, docRef, e), RuleSubject(d, Choice(d, e)), docRef, e.modes)
  {
    var t := RuleSubject(d, Choice(d, e));
    var d1 := AddRef(d, t, RdfType, AclAuthorization);
    var d2 := AddRef(d1, t, AclAccessTo, docRef);
    ValuesAddRef(d, t, RdfType, AclAuthorization, t, RdfType);
    ValuesAddRef(d1, t, AclAccessTo, docRef, t, RdfType);
    ValuesAddRef(d1, t, AclAccessTo, docRef, t, AclAccessTo);
    AddModesValues(d2, t, e.modes, t, RdfType);
    AddModesValues(d2, t, e.modes, t, AclAccessTo);
    AddModesGrants(d2, t, e.modes);
    assert t in AddSubject(d, t).props;
    assert t in d2.order;
  }

  lemma InlineStepKeepsGrant(d: Doc, docRef: Ref, e: Entry, s: Ref, m: Modes)
    requires InlineGrant(d, s, docRef, m)
    ensures InlineGrant(InlineStep(d, docRef, e), s, docRef, m)
  {
    InlineStepValues(d, docRef, e, s, RdfType);
    InlineStepValues(d, docRef, e, s, AclAccessTo);
    InlineStepValues(d, docRef, e, s, AclMode);
    var t := RuleSubject(d, Choice(d, e));
    assert forall x | x in d.order :: x in AddSubject(d, t).order;
  }

  /** Every public and agent entry ends up with an authorization granting its modes for the document. */
  lemma {:induction false} InlineApplyGrants(d: Doc, docRef: Ref, es: seq<Entry>)
    ensures forall i | 0 <= i < |es| :: HasInlineGrant(InlineApply(d, docRef, es), docRef, es[i].modes)
  {
    if es != [] {
      var init, last := es[..|es| - 1], es[|es| - 1];
      var d0 := InlineApply(d, docRef, init);
      InlineApplyGrants(d, docRef, init);
      InlineStepGrants(d0, docRef, last);
      forall i | 0 <= i < |es|
        ensures HasInlineGrant(InlineApply(d, docRef, es), docRef, es[i].modes)
      {
        if i < |es| - 1 {
          assert init[i] == es[i];
          var s :| InlineGrant(d0, s, docRef, es[i].modes);
          InlineStepKeepsGrant(d0, docRef, last, s, es[i].modes);
        }
      }
    }
  }

  /** The inline ACL writer never says whom a rule is for: no agent or agentClass statement changes. */
  lemma {:induction false} InlineApplyNamesNobody(d: Doc, docRef: Ref, es: seq<Entry>, s: Ref)
    ensures Values(InlineApply(d, docRef, es), s, AclAgent) == Values(d, s, AclAgent)
    ensures Values(InlineApply(d, docRef, es), s, AclAgentClass) == Values(d, s, AclAgentClass)
  {
    if es != [] {
      var init, last := es[..|es| - 1], es[|es| - 1];
      InlineApplyNamesNobody(d, docRef, init, s);
      InlineStepValues(InlineApply(d, docRef, init), docRef, last, s, AclAgent);
      InlineStepValues(InlineApply(d, docRef, init), docRef, last, s, AclAgentClass);
    }
  }
}
