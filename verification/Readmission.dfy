/**
 * Replays that are not silent: acknowledging and resolving admit what they observe before
 * they look for a receipt, so a replay may still admit identities.
 */
module Readmission {
  import opened Live
  import opened Order
  import opened State
  import opened Registry
  import opened Steps
  import opened Keeps

  lemma AdmitOneGrows(registry: Registry, admitted: seq<Identity>, id: Identity)
    requires AdmitOne(registry, admitted, id).Some?
    ensures forall x | x in admitted :: x in AdmitOne(registry, admitted, id).value
    ensures id in registry.owned || id in AdmitOne(registry, admitted, id).value
    ensures AdmitOne(registry, admitted, id).value == admitted <==> id in registry.owned || id in admitted
  {
    if id !in registry.owned && id !in admitted {
      var candidate := Sort(AdmittedLess, admitted + [id]);
      assert multiset(candidate) == multiset(admitted + [id]);
      SameElements(candidate, admitted + [id]);
    }
  }

  lemma {:induction false} AdmitAllGrows(registry: Registry, admitted: seq<Identity>, ids: seq<Identity>)
    requires AdmitAll(registry, admitted, ids).Some?
    ensures forall x | x in admitted :: x in AdmitAll(registry, admitted, ids).value
    ensures forall id | id in ids :: id in registry.owned || id in AdmitAll(registry, admitted, ids).value
    ensures AdmitAll(registry, admitted, ids).value == admitted <==>
            forall id | id in ids :: id in registry.owned || id in admitted
  {
    if ids != [] {
      var n := |ids| - 1;
      AdmitAllGrows(registry, admitted, ids[..n]);
      var before := AdmitAll(registry, admitted, ids[..n]).value;
      AdmitOneGrows(registry, before, ids[n]);
      assert ids == ids[..n] + [ids[n]];
      hide AdmitOne;
    }
  }

  /** Every identity an observation keeps is already owned or admitted. */
  predicate AllKnown(policy: Policy, s: State, shell: Shell, states: seq<LiveState>) {
    forall x | x in KeptStates(policy, RegistryOf(s), shell.presentAtAttach, Normal(states)) ::
      x.identity in RegistryOf(s).owned
  }

  lemma FilterAdmitsNothing(policy: Policy, s: State, shell: Shell, states: seq<LiveState>)
    requires FilterSnapshot(policy, s, shell, states).Some?
    ensures s.(admitted := FilterSnapshot(policy, s, shell, states).value.admitted) == s <==>
              AllKnown(policy, s, shell, states)
  {
    var kept := KeptStates(policy, RegistryOf(s), shell.presentAtAttach, Normal(states));
    AdmitAllGrows(RegistryOf(s), s.admitted, StateIds(kept));
    forall id | id in StateIds(kept)
      ensures exists x | x in kept :: x.identity == id
    {
      var i :| 0 <= i < |kept| && StateIds(kept)[i] == id;
      assert kept[i] in kept;
    }
    forall x | x in kept
      ensures x.identity in StateIds(kept)
    {
      var i :| 0 <= i < |kept| && kept[i] == x;
      assert StateIds(kept)[i] == x.identity;
    }
  }

  /** A replayed acknowledgement leaves the state alone exactly when it observes nothing unknown. */
  lemma AcknowledgeReplaySilent(policy: Policy, s: State, request: AcknowledgeRequest)
    requires AcknowledgeStep(policy, s, request).Ok?
    requires ReceiptFor(s.receipts, request.credential.shellId, request.operationId).Some?
    ensures request.credential.shellId in s.shells
    ensures AcknowledgeStep(policy, s, request).value.state == s <==>
            AllKnown(policy, s, s.shells[request.credential.shellId], request.snapshot.states)
  {
    AcknowledgeIs(policy, s, request);
    hide *;
    FilterAdmitsNothing(policy, s, s.shells[request.credential.shellId], request.snapshot.states);
  }

  /** A replayed resolution leaves the state alone exactly when it observes nothing unknown. */
  lemma ResolveReplaySilent(policy: Policy, s: State, request: ResolveRequest)
    requires ResolveStep(policy, s, request).Ok?
    requires ReceiptFor(s.receipts, request.credential.shellId, request.operationId).Some?
    ensures request.credential.shellId in s.shells
    ensures ResolveStep(policy, s, request).value.state == s <==>
            AllKnown(policy, s, s.shells[request.credential.shellId], request.snapshot.states)
  {
    ResolveIs(policy, s, request);
    hide *;
    FilterAdmitsNothing(policy, s, s.shells[request.credential.shellId], request.snapshot.states);
  }
}
