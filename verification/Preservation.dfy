/**
 * Each service operation keeps the protocol invariant: the generation it shares is the one
 * the history records, and every shell still accounts for the revisions it names.
 */
module Preservation {
  import opened Wrappers
  import opened LastOccurrence
  import opened Live
  import opened Diff
  import opened Projection
  import opened Fingerprint
  import opened State
  import opened Registry
  import opened Steps
  import opened Protocol

  /** The history after a step: the generation now shared, recorded at the revision now current. */
  ghost function Recording(g: Generations, s: State): Generations {
    if s.materialized then g[s.headRevision := MapOf(s.shared)] else g
  }

  lemma SameHeadSameHistory(s: State, g: Generations)
    requires Inv(s, g)
    ensures Recording(g, s) == g
  {
    if s.materialized {
      assert g[s.headRevision := g[s.headRevision]] == g;
    }
  }

  // ---------------------------------------------------------------- conflict detection

  lemma {:induction false} MatchesMeaning(c: LiveChange, states: seq<LiveState>)
    requires ValidChange(c) && WellFormed(states)
    ensures ChangeMatches(c, states) <==> Lookup(MapOf(states), c.identity) == c.value
  {
    MapOfLookup(states, c.identity);
    if states != [] {
      var tail := states[1..];
      assert states == [states[0]] + tail;
      UniqueTail(IdentityOf, states);
      assert forall x | x in tail :: x in states;
      MatchesMeaning(c, tail);
      MapOfLookup(tail, c.identity);
      FindConcat([states[0]], tail, c.identity);
      FindSome(tail, c.identity);
      assert [states[0]][..0] == [];
      assert Find([states[0]][..0], c.identity) == None;
      assert states[0] in states && ValidLiveState(states[0]);
    }
  }

  lemma EventLeaves(h: History, head: nat, g: Generations, id: Identity, k: nat)
    requires EventsConnect(h, head, g) && k < |h.events| && id !in Keys(ChangeIdentity, h.events[k].changes)
    ensures Lookup(g[h.floor + k + 1], id) == Lookup(g[h.floor + k], id)
  {
    hide ValidEvent, WellFormed, Keys;
    assert ApplyEdits(g[h.floor + k], EditsOf(h.events[k].changes)) == g[h.floor + k + 1];
    ApplyLookup(g[h.floor + k], EditsOf(h.events[k].changes), id);
    FindSome(EditsOf(h.events[k].changes), id);
    ChangeKeys(h.events[k].changes);
  }

  lemma {:induction false} ChangedAfterMeaning(events: seq<Event>, revision: nat, id: Identity)
    ensures id in ChangedAfter(events, revision) <==>
            exists i | 0 <= i < |events| ::
              events[i].revision > revision && id in Keys(ChangeIdentity, events[i].changes)
  {
    hide Keys;
    if events != [] {
      var n := |events| - 1;
      ChangedAfterMeaning(events[..n], revision, id);
      assert forall i | 0 <= i < n :: events[..n][i] == events[i];
    }
  }

  /** An identity that no event after a revision touches still has the value it had there. */
  lemma {:induction false} UntouchedSince(h: History, head: nat, g: Generations, revision: nat, id: Identity, k: nat)
    requires EventsConnect(h, head, g) && h.floor <= revision <= h.floor + k && k <= |h.events|
    requires forall i | 0 <= i < |h.events| && h.events[i].revision > revision ::
               id !in Keys(ChangeIdentity, h.events[i].changes)
    ensures Lookup(g[h.floor + k], id) == Lookup(g[revision], id)
  {
    if revision < h.floor + k {
      EventRevision(h, head, g, k);
      hide EventsConnect, Keys;
      UntouchedSince(h, head, g, revision, id, k - 1);
      EventLeaves(h, head, g, id, k - 1);
    }
  }

  lemma EventRevision(h: History, head: nat, g: Generations, k: nat)
    requires EventsConnect(h, head, g) && 0 < k <= |h.events|
    ensures h.events[k - 1].revision == h.floor + k && h.floor + k in g && h.floor + (k - 1) in g
  {
  }

  lemma {:induction false} AcceptedMembers(s: State, acknowledged: nat, changes: seq<LiveChange>)
    ensures forall c :: c in Accepted(s, acknowledged, changes) <==> c in changes && Wins(s, acknowledged, c)
  {
    if changes != [] {
      var n := |changes| - 1;
      assert changes == changes[..n] + [changes[n]];
      AcceptedMembers(s, acknowledged, changes[..n]);
    }
  }

  lemma {:induction false} LosingMembers(s: State, acknowledged: nat, changes: seq<LiveChange>)
    ensures forall c :: c in Losing(s, acknowledged, changes) <==> c in changes && Loses(s, acknowledged, c)
  {
    if changes != [] {
      var n := |changes| - 1;
      assert changes == changes[..n] + [changes[n]];
      LosingMembers(s, acknowledged, changes[..n]);
    }
  }

  lemma UniqueChangesSnoc(changes: seq<LiveChange>, c: LiveChange)
    requires Unique(ChangeIdentity, changes)
    requires forall x | x in changes :: x.identity != c.identity
    ensures Unique(ChangeIdentity, changes + [c])
  {
    forall i, j | 0 <= i < j < |changes + [c]|
      ensures ChangeIdentity((changes + [c])[i]) != ChangeIdentity((changes + [c])[j])
    {
      assert changes[i] in changes;
      if j < |changes| {
        assert ChangeIdentity(changes[i]) != ChangeIdentity(changes[j]);
      }
    }
  }

  lemma UniqueChangesPrefix(changes: seq<LiveChange>)
    requires changes != [] && Unique(ChangeIdentity, changes)
    ensures Unique(ChangeIdentity, changes[..|changes| - 1])
    ensures forall x | x in changes[..|changes| - 1] :: x.identity != changes[|changes| - 1].identity
  {
    var n := |changes| - 1;
    forall i, j | 0 <= i < j < n
      ensures ChangeIdentity(changes[..n][i]) != ChangeIdentity(changes[..n][j])
    {
      assert ChangeIdentity(changes[i]) != ChangeIdentity(changes[j]);
    }
    forall x | x in changes[..n]
      ensures x.identity != changes[n].identity
    {
      var i :| 0 <= i < n && changes[..n][i] == x;
      assert ChangeIdentity(changes[i]) != ChangeIdentity(changes[n]);
    }
  }

  lemma {:induction false} SplitUnique(s: State, acknowledged: nat, changes: seq<LiveChange>)
    requires Unique(ChangeIdentity, changes)
    ensures Unique(ChangeIdentity, Accepted(s, acknowledged, changes))
    ensures Unique(ChangeIdentity, Losing(s, acknowledged, changes))
  {
    if changes != [] {
      hide Unique, Wins, Loses;
      var n := |changes| - 1;
      UniqueChangesPrefix(changes);
      SplitUnique(s, acknowledged, changes[..n]);
      AcceptedMembers(s, acknowledged, changes[..n]);
      LosingMembers(s, acknowledged, changes[..n]);
      UniqueChangesSnoc(Accepted(s, acknowledged, changes[..n]), changes[n]);
      UniqueChangesSnoc(Losing(s, acknowledged, changes[..n]), changes[n]);
    }
  }

  lemma SplitValid(s: State, acknowledged: nat, changes: seq<LiveChange>)
    requires ValidChanges(changes)
    ensures ValidChanges(Accepted(s, acknowledged, changes)) && ValidChanges(Losing(s, acknowledged, changes))
  {
    SplitUnique(s, acknowledged, changes);
    AcceptedMembers(s, acknowledged, changes);
    LosingMembers(s, acknowledged, changes);
  }

  lemma ChangeFind(changes: seq<LiveChange>, c: LiveChange)
    requires ValidChanges(changes) && c in changes
    ensures Find(EditsOf(changes), c.identity) == Some(c.value)
  {
    EditsOfValid(changes);
    var i :| 0 <= i < |changes| && changes[i] == c;
    FindAt(EditsOf(changes), i);
  }

  lemma ChangeAbsent(changes: seq<LiveChange>, id: Identity)
    requires forall c | c in changes :: c.identity != id
    ensures Find(EditsOf(changes), id) == None
  {
    FindSome(EditsOf(changes), id);
    ChangeKeys(changes);
    forall i | 0 <= i < |changes|
      ensures ChangeIdentity(changes[i]) != id
    {
      assert changes[i] in changes;
    }
  }

  // ---------------------------------------------------------------- publish

  /** Accepting at least one change changes the generation, so the next revision is a new one. */
  lemma AcceptedChangesGeneration(s: State, acknowledged: nat, changes: seq<LiveChange>)
    requires ValidChanges(changes) && WellFormed(s.shared)
    ensures var accepted := Accepted(s, acknowledged, changes);
            accepted != [] ==> ApplyEdits(MapOf(s.shared), EditsOf(accepted)) != MapOf(s.shared)
  {
    var accepted := Accepted(s, acknowledged, changes);
    SplitValid(s, acknowledged, changes);
    AcceptedMembers(s, acknowledged, changes);
    if accepted != [] {
      var c := accepted[0];
      assert c in accepted;
      MatchesMeaning(c, s.shared);
      ChangeFind(accepted, c);
      ApplyPresent(s.shared);
      ApplyLookup(MapOf(s.shared), EditsOf(accepted), c.identity);
    }
  }

  lemma MergedGeneration(s: State, g: Generations, origin: Origin, accepted: seq<LiveChange>)
    requires Inv(s, g) && s.materialized && ValidOrigin(origin) && ValidChanges(accepted)
    ensures var s1 := Advanced(s, origin, accepted, ApplyChanges(s.shared, accepted));
            && Inv(s1, Recording(g, s1))
            && MapOf(s1.shared) == ApplyEdits(MapOf(s.shared), EditsOf(accepted))
            && s1.shells == s.shells && s1.receipts == s.receipts && s1.materialized
            && s1.headRevision == s.headRevision + 1
  {
    var shared := ApplyChanges(s.shared, accepted);
    ApplyChangesMap(s.shared, accepted);
    AdvancedKeeps(s, g, origin, accepted, shared);
  }

  lemma InvCovers(s: State, g: Generations)
    requires Inv(s, g) && s.materialized
    ensures Covers(g, s.headRevision) && g[s.headRevision] == MapOf(s.shared)
  {
  }

  /** The generation part of a publish, before the shell itself is updated. */
  function Generation(s: State, request: PublishRequest, semantic: seq<LiveChange>): State {
    var accepted := Accepted(s, request.acknowledgedRevision, semantic);
    if accepted == [] then s
    else Advanced(s, ShellOrigin(request.operationId, request.credential.shellId), accepted,
                  ApplyChanges(s.shared, accepted))
  }

  lemma GenerationKeeps(s: State, g: Generations, request: PublishRequest, semantic: seq<LiveChange>)
    requires Inv(s, g) && s.materialized && ValidChanges(semantic)
    requires ValidToken(request.operationId) && ValidToken(request.credential.shellId)
    ensures var s1 := Generation(s, request, semantic);
            && Inv(s1, Recording(g, s1)) && Extends(g, Recording(g, s1)) && s.headRevision <= s1.headRevision
            && s1.shells == s.shells && s1.receipts == s.receipts && s1.materialized
  {
    var accepted := Accepted(s, request.acknowledgedRevision, semantic);
    SplitValid(s, request.acknowledgedRevision, semantic);
    SameHeadSameHistory(s, g);
    if accepted != [] {
      var origin := ShellOrigin(request.operationId, request.credential.shellId);
      var s1 := Advanced(s, origin, accepted, ApplyChanges(s.shared, accepted));
      MergedGeneration(s, g, origin, accepted);
      RecordingExtends(s, g, s1);
      hide *;
      assert Generation(s, request, semantic) == s1 by { GenerationIs(s, request, semantic); }
    }
  }

  lemma GenerationIs(s: State, request: PublishRequest, semantic: seq<LiveChange>)
    ensures var accepted := Accepted(s, request.acknowledgedRevision, semantic);
            accepted != [] ==>
              Generation(s, request, semantic) ==
              Advanced(s, ShellOrigin(request.operationId, request.credential.shellId), accepted,
                       ApplyChanges(s.shared, accepted))
  {
  }

  lemma RecordingExtends(s: State, g: Generations, s1: State)
    requires Inv(s, g) && s.materialized && s1.headRevision == s.headRevision + 1
    ensures Extends(g, Recording(g, s1))
  {
    InvCovers(s, g);
  }

  lemma PublishedShellSound(id: string, shell: Shell, head: nat, g: Generations, observed: seq<LiveState>,
                            losing: seq<LiveChange>, conflicts: seq<Conflict>)
    requires Covers(g, head) && ValidShell(id, shell, head) && ShellCausal(shell, head, g)
    requires WellFormed(observed) && ValidChanges(losing) && |conflicts| == |losing|
    requires shell.pending == NoPending && shell.conflict.None? && shell.unpublishedDelta == []
    requires losing != [] ==> ValidConflict(conflicts[0], head) && conflicts[0].identity == losing[0].identity
    ensures ValidShell(id, PublishedShell(shell, head, observed, losing, conflicts), head)
    ensures ShellCausal(PublishedShell(shell, head, observed, losing, conflicts), head, g)
  {
    if losing != [] {
      assert ChangeIdentity(losing[0]) in Keys(ChangeIdentity, losing);
    }
  }

  lemma InvShell(s: State, g: Generations, id: string)
    requires Inv(s, g) && s.materialized && id in s.shells
    ensures Covers(g, s.headRevision) && ValidShell(id, s.shells[id], s.headRevision)
    ensures ShellCausal(s.shells[id], s.headRevision, g)
    ensures WellFormed(s.shells[id].captureBaseline) && WellFormed(s.shared) && 0 < s.headRevision
  {
  }

  lemma MergeKeeps(s: State, g: Generations, request: PublishRequest, observed: seq<LiveState>,
                   semantic: seq<LiveChange>)
    requires Inv(s, g) && s.materialized && request.credential.shellId in s.shells
    requires ValidToken(request.operationId) && ValidToken(request.credential.shellId)
    requires ReceiptFor(s.receipts, request.credential.shellId, request.operationId).None?
    requires ValidChanges(semantic) && WellFormed(observed)
    requires var shell := s.shells[request.credential.shellId];
             shell.pending == NoPending && shell.conflict.None? && shell.unpublishedDelta == [] &&
             request.acknowledgedRevision == shell.appliedRevision
    ensures var r := Merge(s, request, s.shells[request.credential.shellId], observed, semantic);
            r.Ok? ==> Inv(r.value.state, Recording(g, r.value.state))
  {
    hide *;
    var id, acknowledged := request.credential.shellId, request.acknowledgedRevision;
    var shell := s.shells[id];
    var digest := PublishDigest(acknowledged, request.delta);
    var losing := Losing(s, acknowledged, semantic);
    var s1 := Generation(s, request, semantic);
    var g1 := Recording(g, s1);
    GenerationKeeps(s, g, request, semantic);
    SplitValid(s, acknowledged, semantic);
    InvShell(s, g, id);
    InvShell(s1, g1, id);
    var kind := if acknowledged < s.compactionFloor then HistoryGap else Overlap;
    var conflicts := ConflictsOf(losing, kind, acknowledged, s1.headRevision,
                                 ConflictToken(request.operationId, digest, s1.headRevision));
    LosingConflict(s, g, acknowledged, semantic, s1.headRevision, conflicts, id);
    PublishedShellSound(id, shell, s1.headRevision, g1, observed, losing, conflicts);
    var published := PublishedShell(shell, s1.headRevision, observed, losing, conflicts);
    var reply := Published(s1.headRevision, ChangeIds(Accepted(s, acknowledged, semantic)), conflicts);
    RecordedKeeps(s1, g1, request.credential, request.operationId, digest, published, reply);
    MergeIs(s, request, shell, observed, semantic);
    RecordedFrame(s1, request.credential, request.operationId, digest, published, reply);
    RecordingFrame(g, s1, Recorded(s1, request.credential, request.operationId, digest, published, reply).state);
  }

  lemma RecordedFrame(s: State, credential: Credential, operationId: string, digest: RequestDigest, shell: Shell,
                      reply: Reply)
    ensures var s' := Recorded(s, credential, operationId, digest, shell, reply).state;
            && s'.materialized == s.materialized && s'.headRevision == s.headRevision && s'.shared == s.shared
            && s'.shells == s.shells[credential.shellId := shell]
  {
  }

  lemma RecordingFrame(g: Generations, s: State, s': State)
    requires s'.materialized == s.materialized && s'.headRevision == s.headRevision && s'.shared == s.shared
    ensures Recording(g, s') == Recording(g, s)
  {
  }

  lemma LosingConflict(s: State, g: Generations, acknowledged: nat, semantic: seq<LiveChange>, head: nat,
                       conflicts: seq<Conflict>, id: string)
    requires Inv(s, g) && s.materialized && id in s.shells && s.shells[id].appliedRevision == acknowledged
    requires s.headRevision <= head && ValidChanges(semantic)
    requires |conflicts| == |Losing(s, acknowledged, semantic)|
    requires forall i | 0 <= i < |conflicts| ::
               && conflicts[i].identity == Losing(s, acknowledged, semantic)[i].identity
               && conflicts[i].baseRevision == acknowledged && conflicts[i].sharedRevision == head
               && conflicts[i].token.ConflictToken?
    ensures conflicts != [] ==> ValidConflict(conflicts[0], head)
  {
    SplitValid(s, acknowledged, semantic);
    if conflicts != [] {
      assert ValidChange(Losing(s, acknowledged, semantic)[0]);
    }
  }

  lemma MergeIs(s: State, request: PublishRequest, shell: Shell, observed: seq<LiveState>, semantic: seq<LiveChange>)
    ensures var r := Merge(s, request, shell, observed, semantic);
            var s1 := Generation(s, request, semantic);
            var digest := PublishDigest(request.acknowledgedRevision, request.delta);
            var losing := Losing(s, request.acknowledgedRevision, semantic);
            var kind := if request.acknowledgedRevision < s.compactionFloor then HistoryGap else Overlap;
            var conflicts := ConflictsOf(losing, kind, request.acknowledgedRevision, s1.headRevision,
                                         ConflictToken(request.operationId, digest, s1.headRevision));
            r.Ok? ==> r.value == Recorded(s1, request.credential, request.operationId, digest,
                         PublishedShell(shell, s1.headRevision, observed, losing, conflicts),
                         Published(s1.headRevision,
                                   ChangeIds(Accepted(s, request.acknowledgedRevision, semantic)), conflicts))
  {
  }
}
