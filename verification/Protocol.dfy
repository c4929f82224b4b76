/**
 * What every run of the shared-worktree protocol keeps. A ghost history records the
 * generation shared at every revision ever reached, including compacted ones.
 */
module Protocol {
  import opened Wrappers
  import opened LastOccurrence
  import opened Live
  import opened Diff
  import opened Projection
  import opened Fingerprint
  import opened State
  import opened Registry
  import opened Steps

  /** Generation by revision; revision 0 is the empty generation before materialization. */
  type Generations = map<nat, LiveMap>

  ghost const BEFORE_MATERIALIZATION: Generations := map[0 := map[]]

  // ---------------------------------------------------------------- the invariant

  ghost predicate Covers(g: Generations, head: nat) {
    (forall r: nat :: r in g <==> r <= head) && (forall r | r in g :: ValidMap(g[r]))
  }

  /** Later histories never rewrite a generation. */
  ghost predicate Extends(g: Generations, g': Generations) {
    forall r | r in g :: r in g' && g'[r] == g[r]
  }

  /** Retained events connect consecutive generations, starting from the compaction floor. */
  ghost predicate EventsConnect(h: History, head: nat, g: Generations) {
    && Covers(g, head) && ValidEventSequence(h.floor, head, h.events)
    && WellFormed(h.baseline) && MapOf(h.baseline) == g[h.floor]
    && forall i | 0 <= i < |h.events| ::
         ApplyEdits(g[h.floor + i], EditsOf(h.events[i].changes)) == g[h.floor + i + 1]
  }

  function HistoryOf(s: State): History { History(s.compactionBaseline, s.compactionFloor, s.events) }

  /** Every revision a shell names is a generation it can account for. */
  ghost predicate ShellCausal(shell: Shell, head: nat, g: Generations)
    requires Covers(g, head)
  {
    && 0 < shell.attachedRevision
    && (shell.appliedRevision != 0 ==>
          shell.appliedRevision <= head && MapOf(shell.appliedBaseline) == g[shell.appliedRevision])
    && (!shell.pending.NoPending? ==>
          && shell.pending.revision <= head
          && ApplyEdits(MapOf(shell.captureBaseline), EditsOf(shell.pending.changes)) == g[shell.pending.revision]
          && Identifies(shell.pending.fingerprint, g[shell.pending.revision]))
    && (shell.pending.Pull? ==> shell.conflict.None?)
    && (shell.pending.Resolution? ==>
          && shell.conflict.Some? && shell.conflict.value.identity == shell.pending.conflict
          && shell.conflict.value.token == shell.pending.token)
    && (shell.conflict.Some? ==> shell.conflict.value.identity in Keys(ChangeIdentity, shell.unpublishedDelta))
  }

  ghost predicate Inv(s: State, g: Generations) {
    && Structural(s)
    && (!s.materialized ==> g == BEFORE_MATERIALIZATION)
    && (s.materialized ==>
          && EventsConnect(HistoryOf(s), s.headRevision, g)
          && MapOf(s.shared) == g[s.headRevision]
          && forall id | id in s.shells :: ShellCausal(s.shells[id], s.headRevision, g))
  }

  // ---------------------------------------------------------------- generations

  lemma {:induction false} FoldIsGeneration(h: History, head: nat, g: Generations, k: nat)
    requires EventsConnect(h, head, g) && k <= |h.events|
    ensures MapOf(FoldEvents(h.baseline, h.events[..k])) == g[h.floor + k]
    ensures WellFormed(FoldEvents(h.baseline, h.events[..k]))
  {
    hide ApplyChanges, ApplyEdits, Unique, Covers, ValidChanges;
    if k == 0 {
      assert h.events[..0] == [];
    } else {
      FoldIsGeneration(h, head, g, k - 1);
      assert h.events[..k][..k - 1] == h.events[..k - 1];
      assert ValidEvent(h.events[k - 1]);
      ApplyChangesMap(FoldEvents(h.baseline, h.events[..k - 1]), h.events[k - 1].changes);
    }
  }

  lemma DropConnects(h: History, head: nat, g: Generations)
    requires EventsConnect(h, head, g) && h.events != []
    ensures var first := h.events[0];
            EventsConnect(History(ApplyChanges(h.baseline, first.changes), first.revision, h.events[1..]), head, g)
  {
    hide ApplyChanges, ApplyEdits, Unique, ValidMap, ValidOrigin, ValidChanges;
    var first, tail := h.events[0], h.events[1..];
    assert first.revision == h.floor + 1 && ValidEvent(first);
    ApplyChangesMap(h.baseline, first.changes);
    assert ApplyEdits(g[h.floor + 0], EditsOf(first.changes)) == g[h.floor + 0 + 1];
    forall i | 0 <= i < |tail|
      ensures tail[i].revision == h.floor + 1 + 1 + i && ValidEvent(tail[i])
      ensures ApplyEdits(g[h.floor + 1 + i], EditsOf(tail[i].changes)) == g[h.floor + 1 + i + 1]
    {
      assert tail[i] == h.events[i + 1];
      assert ApplyEdits(g[h.floor + (i + 1)], EditsOf(h.events[i + 1].changes)) == g[h.floor + (i + 1) + 1];
    }
  }

  lemma {:induction false} CompactConnects(h: History, head: nat, g: Generations)
    requires EventsConnect(h, head, g)
    ensures EventsConnect(Compact(h), head, g) && |Compact(h).events| <= MAX_STATE_EVENTS
    decreases |h.events|
  {
    hide EventsConnect, ApplyChanges;
    if |h.events| > MAX_STATE_EVENTS {
      DropConnects(h, head, g);
      CompactConnects(History(ApplyChanges(h.baseline, h.events[0].changes), h.events[0].revision, h.events[1..]),
                      head, g);
    }
  }

  lemma CoversNext(g: Generations, head: nat, changes: seq<LiveChange>)
    requires Covers(g, head) && ValidChanges(changes)
    ensures var g' := g[head + 1 := ApplyEdits(g[head], EditsOf(changes))];
            Covers(g', head + 1) && Extends(g, g')
  {
    EditsOfValid(changes);
    ApplyValid(g[head], EditsOf(changes));
  }

  lemma AppendConnects(h: History, head: nat, g: Generations, event: Event)
    requires EventsConnect(h, head, g) && ValidEvent(event) && event.revision == head + 1
    ensures EventsConnect(h.(events := h.events + [event]), head + 1,
                          g[head + 1 := ApplyEdits(g[head], EditsOf(event.changes))])
  {
    CoversNext(g, head, event.changes);
    hide ApplyEdits, ValidEvent, WellFormed, MapOf, ValidMap, EditsOf, ValidChanges;
    var g' := g[head + 1 := ApplyEdits(g[head], EditsOf(event.changes))];
    var events := h.events + [event];
    forall i | 0 <= i < |events|
      ensures events[i].revision == h.floor + 1 + i && ValidEvent(events[i])
      ensures ApplyEdits(g'[h.floor + i], EditsOf(events[i].changes)) == g'[h.floor + i + 1]
    {
      if i < |h.events| {
        OldEvent(h, head, g, i);
        assert events[i] == h.events[i] && h.floor + i + 1 != head + 1;
      }
    }
    assert g'[h.floor] == g[h.floor];
  }

  lemma OldEvent(h: History, head: nat, g: Generations, i: nat)
    requires EventsConnect(h, head, g) && i < |h.events|
    ensures h.floor + i in g && h.floor + i + 1 in g && h.floor + i + 1 <= head
    ensures h.events[i].revision == h.floor + 1 + i && ValidEvent(h.events[i])
    ensures ApplyEdits(g[h.floor + i], EditsOf(h.events[i].changes)) == g[h.floor + i + 1]
  {
    hide ApplyEdits, ValidEvent, WellFormed, MapOf, ValidMap, EditsOf;
  }

  /** Appending the event of a new generation and compacting keeps the history connected. */
  lemma AdvanceConnects(h: History, head: nat, g: Generations, origin: Origin, changes: seq<LiveChange>)
    requires EventsConnect(h, head, g) && ValidOrigin(origin) && ValidChanges(changes)
    ensures var g' := g[head + 1 := ApplyEdits(g[head], EditsOf(changes))];
            var h' := Compact(h.(events := h.events + [Event(head + 1, origin, changes)]));
            && EventsConnect(h', head + 1, g') && |h'.events| <= MAX_STATE_EVENTS
            && Covers(g, head) && Covers(g', head + 1) && Extends(g, g')
  {
    CoversNext(g, head, changes);
    AppendConnects(h, head, g, Event(head + 1, origin, changes));
    CompactConnects(h.(events := h.events + [Event(head + 1, origin, changes)]), head + 1,
                    g[head + 1 := ApplyEdits(g[head], EditsOf(changes))]);
  }

  /** The history checks of ValidateState follow from connected generations. */
  lemma ConnectedIsStructural(s: State, g: Generations)
    requires s.materialized && EventsConnect(HistoryOf(s), s.headRevision, g)
    requires MapOf(s.shared) == g[s.headRevision]
    ensures s.compactionFloor <= s.headRevision
    ensures MapOf(FoldEvents(s.compactionBaseline, s.events)) == MapOf(s.shared)
    ensures WellFormed(FoldEvents(s.compactionBaseline, s.events))
  {
    hide FoldEvents, ApplyEdits, ValidEvent, WellFormed, Covers;
    FoldIsGeneration(HistoryOf(s), s.headRevision, g, |s.events|);
    assert s.events[..|s.events|] == s.events;
  }

  lemma ShellCausalLater(shell: Shell, head: nat, g: Generations, head': nat, g': Generations)
    requires Covers(g, head) && Covers(g', head') && head <= head' && ShellCausal(shell, head, g)
    requires Extends(g, g')
    ensures ShellCausal(shell, head', g')
  {
  }

  lemma ValidShellLater(id: string, shell: Shell, head: nat, head': nat)
    requires ValidShell(id, shell, head) && head <= head'
    ensures ValidShell(id, shell, head')
  {
  }

  // ---------------------------------------------------------------- receipts

  lemma {:induction false} ReceiptForNone(receipts: seq<Receipt>, shellId: string, operationId: string)
    ensures ReceiptFor(receipts, shellId, operationId).None? <==>
            forall r | r in receipts :: !(r.shellId == shellId && r.operationId == operationId)
    ensures var found := ReceiptFor(receipts, shellId, operationId);
            found.Some? ==> found.value in receipts && found.value.shellId == shellId &&
                            found.value.operationId == operationId
  {
    if receipts != [] {
      var n := |receipts| - 1;
      assert receipts == receipts[..n] + [receipts[n]];
      ReceiptForNone(receipts[..n], shellId, operationId);
    }
  }

  lemma WithReceiptUnique(receipts: seq<Receipt>, receipt: Receipt)
    requires ReceiptsUnique(receipts)
    requires ReceiptFor(receipts, receipt.shellId, receipt.operationId).None?
    ensures ReceiptsUnique(WithReceipt(receipts, receipt))
    ensures forall r | r in WithReceipt(receipts, receipt) :: r == receipt || r in receipts
  {
    ReceiptForNone(receipts, receipt.shellId, receipt.operationId);
    DropOldestUnique(receipts, receipt.shellId);
    DropOldestWindow(receipts, receipt.shellId, receipt.shellId);
    var kept := if |OfShell(receipts, receipt.shellId)| >= MAX_RECEIPTS_PER_SHELL
                then DropOldest(receipts, receipt.shellId) else receipts;
    forall i | 0 <= i < |kept|
      ensures kept[i].shellId != receipt.shellId || kept[i].operationId != receipt.operationId
    {
      assert kept[i] in receipts;
    }
  }

  lemma WithReceiptValid(receipts: seq<Receipt>, shells: map<string, Shell>, receipt: Receipt, shell: Shell)
    requires ValidReceipts(receipts, shells) && ValidToken(receipt.operationId)
    requires ReceiptFor(receipts, receipt.shellId, receipt.operationId).None?
    ensures ValidReceipts(WithReceipt(receipts, receipt), shells[receipt.shellId := shell])
  {
    WithReceiptUnique(receipts, receipt);
    if receipt.shellId !in shells {
      OfShellAbsent(receipts, receipt.shellId);
    }
    var shells' := shells[receipt.shellId := shell];
    forall id | id in shells'
      ensures |OfShell(WithReceipt(receipts, receipt), id)| <= MAX_RECEIPTS_PER_SHELL
    {
      ReceiptWindow(receipts, receipt, id);
    }
  }

  // ---------------------------------------------------------------- recording one shell

  /** Recording a sound shell under a fresh receipt keeps the invariant. */
  lemma RecordedKeeps(s: State, g: Generations, credential: Credential, operationId: string,
                      digest: RequestDigest, shell: Shell, reply: Reply)
    requires Inv(s, g) && s.materialized && ValidToken(operationId)
    requires ReceiptFor(s.receipts, credential.shellId, operationId).None?
    requires credential.shellId in s.shells || |s.shells| < MAX_SHELL_RECORDS
    requires ValidShell(credential.shellId, shell, s.headRevision) && ShellCausal(shell, s.headRevision, g)
    ensures Inv(Recorded(s, credential, operationId, digest, shell, reply).state, g)
  {
    hide ValidShell, ShellCausal, EventsConnect, ValidReceipts, FoldEvents, MapOf, ValidCommitted, CanonicalAdmitted,
         WellFormed, ValidEventSequence, WithReceipt, ValidBranch, ValidOid, AllValid, Distinct;
    WithReceiptValid(s.receipts, s.shells, Receipt(credential.shellId, operationId, digest, reply), shell);
  }

  lemma AdmittedKeeps(s: State, g: Generations, admitted: seq<Identity>)
    requires Inv(s, g) && s.materialized && CanonicalAdmitted(admitted)
    ensures Inv(s.(admitted := admitted), g)
  {
  }

  /** Moving to a new generation keeps the invariant with the history extended by it. */
  lemma AdvancedKeeps(s: State, g: Generations, origin: Origin, changes: seq<LiveChange>, shared: seq<LiveState>)
    requires s.materialized && Structural(s) && ValidOrigin(origin) && ValidChanges(changes)
    requires EventsConnect(HistoryOf(s), s.headRevision, g)
    requires forall id | id in s.shells :: ShellCausal(s.shells[id], s.headRevision, g)
    requires WellFormed(shared) && MapOf(shared) == ApplyEdits(g[s.headRevision], EditsOf(changes))
    ensures Inv(Advanced(s, origin, changes, shared), g[s.headRevision + 1 := MapOf(shared)])
  {
    hide ValidShell, ShellCausal, EventsConnect, ValidReceipts, FoldEvents, MapOf, ValidCommitted, CanonicalAdmitted,
         ValidEventSequence, ValidBranch, ValidOid, AllValid, Distinct, Compact, ApplyEdits, Covers;
    var g' := g[s.headRevision + 1 := MapOf(shared)];
    var s' := Advanced(s, origin, changes, shared);
    AdvanceConnects(HistoryOf(s), s.headRevision, g, origin, changes);
    assert EventsConnect(HistoryOf(s'), s'.headRevision, g');
    ConnectedIsStructural(s', g');
    forall id | id in s'.shells
      ensures ShellCausal(s'.shells[id], s'.headRevision, g') && ValidShell(id, s'.shells[id], s'.headRevision)
    {
      ShellCausalLater(s.shells[id], s.headRevision, g, s'.headRevision, g');
      ValidShellLater(id, s.shells[id], s.headRevision, s'.headRevision);
    }
  }
}
