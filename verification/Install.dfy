/**
 * The guarded install transaction (core/cli/install_transaction.go).
 *
 * The target name and the exchange peer are two cells. Before every step an adversary may
 * replace the target (or the requested link), and every step may succeed, fail with its
 * effect applied or not, or be where the process crashes. A journal write leaves the old or
 * the new record, wherever it is torn (`Durable.TornWriteIsAStep`).
 */
module Install {
  import opened Wrappers

  datatype Kind = Regular | Symlink(to: string) | Special

  /** A directory entry with everything its evidence records. */
  datatype Entry = Entry(inode: nat, digest: nat, mode: nat, owner: nat, kind: Kind)

  /** What was captured of the target: nothing, or a regular file without its owner. */
  datatype Snapshot = Absent | Snapshot(inode: nat, digest: nat, mode: nat)

  predicate Matches(e: Entry, s: Snapshot) {
    s.Snapshot? && e.kind.Regular? && e.inode == s.inode && e.digest == s.digest && e.mode == s.mode
  }

  datatype Topology = Topology(present: bool, symlink: bool, to: string)

  function TopologyOf(target: Option<Entry>): Topology {
    if target.None? then Topology(false, false, "")
    else if target.value.kind.Symlink? then Topology(true, true, target.value.kind.to)
    else Topology(true, false, "")
  }

  datatype PromotionState = Prepared | Exchanged | Created | Reversed | ParentSynced | Finalized

  datatype Journal = Journal(state: PromotionState, displaced: Option<Entry>)

  datatype Record = Record(generation: nat, journal: Journal)

  const MAX_GENERATION: nat := 0xFFFF_FFFF_FFFF_FFFF

  /** validInstallPromotionJournalTransition; the constant fields of a journal are not modelled. */
  predicate ValidTransition(previous: Journal, next: Journal) {
    match previous.state
    case Prepared =>
      if next.state == Exchanged then previous.displaced.None? && next.displaced.Some?
      else (next.state == Created || next.state == Finalized) && previous.displaced.None? && next.displaced.None?
    case Exchanged =>
      (next.state == ParentSynced || next.state == Reversed) && previous.displaced.Some? &&
      next.displaced == previous.displaced
    case Created => next.state == ParentSynced && previous.displaced.None? && next.displaced.None?
    case ParentSynced =>
      (next.state == Reversed || next.state == Finalized) && next.displaced == previous.displaced
    case Reversed => next.state == Finalized && previous.displaced.Some? && next.displaced == previous.displaced
    case Finalized => false
  }

  // ---------------------------------------------------------------- the disk

  /**
   * The cells an install touches, and an account of every entry ever placed in them: what
   * the transaction removed, and what others overwrote.
   */
  datatype Disk = Disk(target: Option<Entry>, peer: Option<Entry>, link: Topology, record: Option<Record>,
                       placed: multiset<Entry>, clobbered: multiset<Entry>, removed: multiset<Entry>)

  function Held(cell: Option<Entry>): multiset<Entry> {
    if cell.None? then multiset{} else multiset{cell.value}
  }

  /** Every entry ever placed is in a cell, was removed here, or was overwritten by others. */
  ghost predicate Conserved(d: Disk) {
    Held(d.target) + Held(d.peer) + d.removed + d.clobbered == d.placed
  }

  // ---------------------------------------------------------------- the environment

  datatype Report = Done | Failed | Unsupported | Crashed

  /**
   * One turn of the environment: what it does to the target and the link before a step,
   * whether the step's authority still authenticates, and how the step ends. A step that does
   * not end well may still have been applied.
   */
  datatype Turn = Turn(replace: Option<Option<Entry>>, relink: Option<Topology>, authentic: bool,
                       applied: bool, report: Report)

  type Environment = nat -> Turn

  /** A promotion that gets that far exchanges the cells in its fifth turn. */
  const EXCHANGE_TURNS: nat := 5

  /** From turn `k` on nobody else touches the target, the link or the private directory. */
  ghost predicate QuietFrom(env: Environment, k: nat) { forall i: nat | k <= i :: Undisturbed(env(i)) }

  /** Others may replace the target before turn `k`, but do nothing else and nothing later. */
  ghost predicate LateAt(env: Environment, k: nat) {
    QuietFrom(env, k + 1) && env(k).relink.None? && env(k).authentic
  }

  /** Nobody else acts in the turns from `a` to before `b`. */
  ghost predicate QuietUntil(env: Environment, a: nat, b: nat) { forall i: nat | a <= i < b :: Undisturbed(env(i)) }

  /** A turn in which nobody else acts and the step succeeds. */
  predicate Fine(turn: Turn) { Undisturbed(turn) && turn.report == Done }

  /** A turn in which nobody else acts, the step takes effect, and the process crashes before it knows. */
  predicate CrashesAfter(turn: Turn) { Undisturbed(turn) && turn.applied && turn.report == Crashed }

  /** The four checks of a rollback succeed, and the process crashes right after its exchange. */
  predicate CutsRollback(env: Environment, k: nat) {
    Fine(env(k)) && Fine(env(k + 1)) && Fine(env(k + 2)) && Fine(env(k + 3)) && CrashesAfter(env(k + 4))
  }

  predicate Undisturbed(turn: Turn) { turn.replace.None? && turn.relink.None? && turn.authentic }

  ghost predicate FaultFree(env: Environment) { forall k :: env(k).report == Done }

  predicate Applied(turn: Turn) { turn.report == Done || (turn.report != Unsupported && turn.applied) }

  /** A change to the namespace is refused without authority. */
  predicate Applies(turn: Turn) { turn.authentic && Applied(turn) }

  function Interfered(d: Disk, turn: Turn): Disk {
    var d1 := if turn.relink.Some? then d.(link := turn.relink.value) else d;
    if turn.replace.None? then d1
    else
      d1.(target := turn.replace.value, clobbered := d.clobbered + Held(d.target),
          placed := d.placed + Held(turn.replace.value))
  }

  /** What the target holds before turn `b` when only others act on it from turn `a` on. */
  function TargetSeen(target: Option<Entry>, env: Environment, a: nat, b: nat): Option<Entry> {
    if b <= a then target
    else if env(b - 1).replace.Some? then env(b - 1).replace.value
    else TargetSeen(target, env, a, b - 1)
  }

  /** What the requested link is before turn `b` when only others act on it from turn `a` on. */
  function LinkSeen(link: Topology, env: Environment, a: nat, b: nat): Topology {
    if b <= a then link
    else if env(b - 1).relink.Some? then env(b - 1).relink.value
    else LinkSeen(link, env, a, b - 1)
  }

  lemma {:induction false} SeenThrough(target: Option<Entry>, link: Topology, env: Environment, a: nat, b: nat, c: nat)
    requires a <= b <= c
    ensures TargetSeen(TargetSeen(target, env, a, b), env, b, c) == TargetSeen(target, env, a, c)
    ensures LinkSeen(LinkSeen(link, env, a, b), env, b, c) == LinkSeen(link, env, a, c)
  {
    if b < c {
      SeenThrough(target, link, env, a, b, c - 1);
    }
  }

  lemma SeenComposes(env: Environment)
    ensures forall target, a: nat, b: nat, c: nat | a <= b <= c ::
              TargetSeen(TargetSeen(target, env, a, b), env, b, c) == TargetSeen(target, env, a, c)
    ensures forall link, a: nat, b: nat, c: nat | a <= b <= c ::
              LinkSeen(LinkSeen(link, env, a, b), env, b, c) == LinkSeen(link, env, a, c)
    ensures forall target, a: nat, b: nat | b <= a :: TargetSeen(target, env, a, b) == target
    ensures forall link, a: nat, b: nat | b <= a :: LinkSeen(link, env, a, b) == link
  {
    forall target, a: nat, b: nat, c: nat | a <= b <= c
      ensures TargetSeen(TargetSeen(target, env, a, b), env, b, c) == TargetSeen(target, env, a, c)
    {
      SeenThrough(target, Topology(false, false, ""), env, a, b, c);
    }
    forall link, a: nat, b: nat, c: nat | a <= b <= c
      ensures LinkSeen(LinkSeen(link, env, a, b), env, b, c) == LinkSeen(link, env, a, c)
    {
      SeenThrough(None, link, env, a, b, c);
    }
  }

  /** Turns in which nobody else acts change nothing. */
  lemma {:induction false} SeenUndisturbed(target: Option<Entry>, link: Topology, env: Environment, a: nat, b: nat)
    requires QuietUntil(env, a, b)
    ensures TargetSeen(target, env, a, b) == target && LinkSeen(link, env, a, b) == link
  {
    if a < b {
      SeenUndisturbed(target, link, env, a, b - 1);
    }
  }

  /** In the turns before an exchange nobody disturbs, target and link stay and the authority holds. */
  lemma FirstTurns(d: Disk, env: Environment, k: nat)
    ensures QuietUntil(env, k, k + EXCHANGE_TURNS - 1) ==>
              && env(k).authentic && env(k + 2).replace.None?
              && TargetSeen(d.target, env, k, k + 1) == d.target && LinkSeen(d.link, env, k, k + 1) == d.link
              && TargetSeen(d.target, env, k, k + 2) == d.target && LinkSeen(d.link, env, k, k + 2) == d.link
              && TargetSeen(d.target, env, k, k + EXCHANGE_TURNS - 1) == d.target
              && LinkSeen(d.link, env, k, k + EXCHANGE_TURNS - 1) == d.link
  {
    if QuietUntil(env, k, k + EXCHANGE_TURNS - 1) {
      SeenUndisturbed(d.target, d.link, env, k, k + 1);
      SeenUndisturbed(d.target, d.link, env, k, k + 2);
      SeenUndisturbed(d.target, d.link, env, k, k + EXCHANGE_TURNS - 1);
      assert Undisturbed(env(k)) && Undisturbed(env(k + 2));
    }
  }

  lemma QuietLater(env: Environment, a: nat, b: nat)
    requires QuietFrom(env, a) && a <= b
    ensures QuietFrom(env, b)
  {
  }

  lemma SeenStays(target: Option<Entry>, link: Topology, env: Environment, a: nat, b: nat)
    requires QuietFrom(env, a)
    ensures TargetSeen(target, env, a, b) == target && LinkSeen(link, env, a, b) == link
  {
    SeenUndisturbed(target, link, env, a, b);
  }

  lemma SeenOneTurn(d: Disk, env: Environment, k: nat)
    ensures TargetSeen(d.target, env, k, k + 1) == Interfered(d, env(k)).target
    ensures LinkSeen(d.link, env, k, k + 1) == Interfered(d, env(k)).link
    ensures TargetSeen(d.target, env, k, k) == d.target && LinkSeen(d.link, env, k, k) == d.link
  {
  }

  /** Only others acted, on the target and the link. */
  ghost predicate Watched(d: Disk, d': Disk) {
    && d'.peer == d.peer && d'.record == d.record && d'.removed == d.removed
    && (Conserved(d) ==> Conserved(d'))
  }

  lemma Interfering(d: Disk, turn: Turn)
    ensures Watched(d, Interfered(d, turn))
    ensures turn.replace.None? && turn.relink.None? ==> Interfered(d, turn) == d
  {
    if turn.replace.Some? {
      Clobbering(Held(d.target), Held(d.peer), d.removed, d.clobbered, Held(turn.replace.value));
    }
  }

  lemma Clobbering(t: multiset<Entry>, p: multiset<Entry>, r: multiset<Entry>, c: multiset<Entry>, t': multiset<Entry>)
    ensures t' + p + r + (c + t) == t + p + r + c + t'
  {
  }

  /** The two cells, exchanged. */
  function Swapped(d: Disk): Disk { d.(target := d.peer, peer := d.target) }

  lemma SwapConserves(d: Disk)
    requires Conserved(d)
    ensures Conserved(Swapped(d))
  {
  }

  function Removed(d: Disk): Disk { d.(peer := None, removed := d.removed + Held(d.peer)) }

  lemma RemoveConserves(d: Disk)
    requires Conserved(d)
    ensures Conserved(Removed(d))
  {
  }

  datatype Rename = Renamed | Occupied | RenameUnsupported | RenameFailed | RenameCrashed

  datatype Check = Yes | No | Stopped

  function CheckOf(turn: Turn): Check {
    if turn.report == Crashed then Stopped else if turn.report == Done then Yes else No
  }

  // ---------------------------------------------------------------- where an install can be

  /** What one transaction knows and never changes. */
  datatype Plan = Plan(direct: bool, candidate: Entry, snapshot: Snapshot, requested: Topology)

  function CurrentTopology(plan: Plan, d: Disk): Topology {
    if plan.direct then TopologyOf(d.target) else d.link
  }

  predicate Either(plan: Plan, d: Disk, o: Entry) {
    (d.target == Some(o) && d.peer == Some(plan.candidate)) || (d.target == Some(plan.candidate) && d.peer == Some(o))
  }

  /** The requested link is as it was captured, whatever the target cell holds. */
  predicate LinkHeld(plan: Plan, link: Topology) {
    if plan.direct then plan.requested == Topology(true, false, "") else link == plan.requested
  }

  predicate Stage(plan: Plan, r: Record, o: Entry) {
    match r.journal.state
    case Prepared => r.generation == 1 && r.journal.displaced.None?
    case Exchanged => r.generation == 2 && r.journal.displaced == Some(o)
    case ParentSynced => r.generation == 3 && r.journal.displaced == Some(o) && Matches(o, plan.snapshot)
    case Reversed => (r.generation == 3 || r.generation == 4) && r.journal.displaced == Some(o)
    case Created => false
    case Finalized => false
  }

  /**
   * An unfinished install over the occupant `o`: between them the two cells hold `o` and the
   * candidate, and the journal says how far the install came.
   */
  predicate Phase(plan: Plan, d: Disk, o: Entry) {
    && plan.snapshot.Snapshot? && plan.candidate.kind.Regular? && LinkHeld(plan, d.link) && Either(plan, d, o)
    && d.record.Some? && Stage(plan, d.record.value, o)
    && (d.record.value.journal.state == Reversed ==> d.target == Some(o) && d.peer == Some(plan.candidate))
  }

  /** A transaction over an existing target whose journal was just prepared; the target may hold anything by now. */
  predicate Ready(plan: Plan, d: Disk) {
    && plan.snapshot.Snapshot? && plan.candidate.kind.Regular? && d.peer == Some(plan.candidate)
    && d.record == Some(Record(1, Journal(Prepared, None)))
  }

  lemma ReadyIsPhase(plan: Plan, d: Disk, o: Entry)
    requires Ready(plan, d) && d.target == Some(o) && LinkHeld(plan, d.link)
    ensures Phase(plan, d, o) && Phase(plan, Swapped(d), o)
  {
  }

  /** Until something is exchanged, what the target holds is the occupant. */
  lemma StillReady(plan: Plan, d: Disk, d': Disk)
    ensures Ready(plan, d) && d'.peer == d.peer && d'.record == d.record && d'.target.Some? &&
            LinkHeld(plan, d'.link) ==>
              Phase(plan, d', d'.target.value)
    ensures Ready(plan, d) && d.target.Some? && Matches(d.target.value, plan.snapshot) && LinkHeld(plan, d.link) &&
            d'.target == d.target && d'.link == d.link ==>
              Original(plan, d') && LinkAuthentic(plan, d', Journal(Prepared, None))
  {
  }

  /** The install is over and the target holds `o`. */
  predicate Settled(d: Disk, o: Entry) {
    d.target == Some(o) && (d.record.None? || d.record.value.journal.state == Finalized)
  }

  /** What a removal may have taken: the candidate, or the original it replaced. */
  ghost predicate Authorized(plan: Plan, before: multiset<Entry>, after: multiset<Entry>, installed: bool) {
    after == before ||
    exists e :: after == before + multiset{e} && (e == plan.candidate || (installed && Matches(e, plan.snapshot)))
  }

  /** The link condition of authenticateJournalAndEvidence. */
  predicate LinkAuthentic(plan: Plan, d: Disk, journal: Journal) {
    if journal.state == Reversed then journal.displaced.Some? && d.target == journal.displaced
    else if plan.snapshot.Snapshot? then
      CurrentTopology(plan, d) == plan.requested ||
      (journal.state == Exchanged && journal.displaced.Some? && d.target == journal.displaced)
    else if journal.state == Prepared then !CurrentTopology(plan, d).symlink
    else CurrentTopology(plan, d).present && !CurrentTopology(plan, d).symlink
  }

  /** Only others acted, or the next record was written. */
  ghost predicate Recorded(d: Disk, d': Disk, next: Record) {
    && d'.peer == d.peer && d'.removed == d.removed && (d'.record == d.record || d'.record == Some(next))
    && (Conserved(d) ==> Conserved(d'))
  }

  /** Nothing was removed and every entry is accounted for. */
  ghost predicate Intact(d: Disk, d': Disk) { d'.removed == d.removed && (Conserved(d) ==> Conserved(d')) }

  lemma SwapKeepsPhase(plan: Plan, d: Disk, o: Entry)
    requires Phase(plan, d, o)
    requires d.record.value.journal.state != Reversed || d.target == Some(plan.candidate)
    ensures Phase(plan, Swapped(d), o)
  {
  }

  lemma PhaseFacts(plan: Plan, d: Disk, o: Entry)
    requires Phase(plan, d, o)
    ensures plan.snapshot.Snapshot? && d.target.Some? && d.peer.Some? && d.record.Some?
    ensures d.target == Some(plan.candidate) ==> d.peer == Some(o)
    ensures d.target == Some(o) ==> d.peer == Some(plan.candidate)
    ensures d.target == Some(o) || d.target == Some(plan.candidate)
  {
  }

  /** The journal may advance to a state that names the occupant and fits the cells. */
  predicate Advances(plan: Plan, d: Disk, o: Entry, next: Journal) {
    && next.displaced == Some(o)
    && (next.state == Exchanged
        || (next.state == ParentSynced && Matches(o, plan.snapshot))
        || (next.state == Reversed && d.target == Some(o) && d.peer == Some(plan.candidate)))
  }

  /** A quiet journal write over the occupant keeps the phase, whether or not it reached the disk. */
  lemma JournalKeepsPhase(plan: Plan, d: Disk, d': Disk, o: Entry, r: Record, next: Journal)
    ensures Phase(plan, d, o) && d' == d.(record := d'.record) &&
            (d'.record == d.record || d'.record == Some(Record(r.generation + 1, next))) &&
            (d'.record != d.record ==>
                d.record == Some(r) && ValidTransition(r.journal, next) && Advances(plan, d, o, next))
            ==> Phase(plan, d', o)
  {
  }

  lemma PhaseNamesOccupant(plan: Plan, d: Disk, o: Entry)
    ensures Phase(plan, d, o) && d.record.value.journal.displaced.Some? ==> d.record.value.journal.displaced == Some(o)
  {
  }

  /** While an install over `o` is unfinished, the journal state authenticates its link. */
  lemma PhaseAuthentic(plan: Plan, d: Disk, o: Entry)
    requires Phase(plan, d, o)
    ensures var j := d.record.value.journal;
            LinkAuthentic(plan, d, j) <==>
            (j.state == Reversed || j.state == Exchanged || d.target == Some(plan.candidate) || !plan.direct ||
             !o.kind.Symlink?)
  {
  }

  /** An exchanged journal authenticates the link of an occupant that is back in place. */
  lemma ReversedAuthentic(plan: Plan, d: Disk, journal: Journal)
    ensures journal.state == Exchanged && journal.displaced.Some? && d.peer == journal.displaced &&
            plan.snapshot.Snapshot?
            ==> LinkAuthentic(plan, Swapped(d), journal)
  {
  }

  lemma PeerIsCandidate(plan: Plan, d: Disk, o: Entry)
    ensures Phase(plan, d, o) ==> plan.snapshot.Snapshot? && (d.peer == Some(plan.candidate) ==> d.target == Some(o))
  {
  }

  /** Nothing of an install is left but the target. */
  predicate Cleared(d: Disk) { d.peer.None? && d.record.None? }

  /** A transaction over an absent target whose journal was just prepared. */
  predicate Vacant(plan: Plan, d: Disk) {
    && plan.snapshot.Absent? && plan.candidate.kind.Regular? && d.peer == Some(plan.candidate)
    && d.record == Some(Record(1, Journal(Prepared, None)))
    && d.target.None? && (plan.direct || (d.link.present && !d.link.symlink))
  }

  lemma VacantFacts(plan: Plan, d: Disk)
    ensures Vacant(plan, d) ==>
              && Original(plan, d) && LinkAuthentic(plan, d, Journal(Prepared, None)) && d.peer == Some(plan.candidate)
              && d.record == Some(Record(1, Journal(Prepared, None))) && d.target.None? && plan.snapshot.Absent?
    ensures Vacant(plan, d) ==> Swapped(d) == d.(target := Some(plan.candidate), peer := None)
    ensures Vacant(plan, d) ==>
              forall state, record | state in {Prepared, Created, ParentSynced} ::
                LinkAuthentic(plan, Swapped(d).(record := record), Journal(state, None))
    ensures ValidTransition(Journal(Prepared, None), Journal(Created, None))
    ensures ValidTransition(Journal(Created, None), Journal(ParentSynced, None))
    ensures ValidTransition(Journal(ParentSynced, None), Journal(Finalized, None))
    ensures ValidTransition(Journal(Prepared, None), Journal(Finalized, None))
  {
  }

  predicate Over(d: Disk) { d.record.None? || d.record.value.journal.state == Finalized }

  /**
   * Recovery leaves everything in place: an occupant that is back although the journal says the
   * install was complete, or a target that stopped matching before anything was exchanged.
   */
  predicate Stuck(plan: Plan, d: Disk, o: Entry)
    requires d.record.Some?
  {
    d.target == Some(o) &&
    (d.record.value.journal.state == ParentSynced ||
     (d.record.value.journal.state == Prepared && !Matches(o, plan.snapshot)))
  }

  lemma StuckHolds(plan: Plan, d: Disk, o: Entry)
    ensures d.record.Some? && Stuck(plan, d, o) ==> d.target == Some(o)
    ensures Phase(plan, d, o) ==> d.record.Some?
  {
  }

  /** What recovery finds on a disk in a phase over another entry than the candidate. */
  lemma RecoveryCases(plan: Plan, d: Disk, o: Entry)
    ensures Phase(plan, d, o) && o != plan.candidate ==>
              var Record(g, j) := d.record.value;
              && g < 5 && (if j.state == Prepared then g == 1 && j.displaced.None? else j.displaced == Some(o))
              && j.state != Created && j.state != Finalized
              && (LinkAuthentic(plan, d, j) || Stuck(plan, d, o))
              && (d.target == Some(plan.candidate) ==> d.peer == Some(o) && j.state != Reversed)
              && (d.target != Some(plan.candidate) ==> d.target == Some(o) && d.peer == Some(plan.candidate))
  {
  }

  /** A reversed journal authenticates and may be finalized while its occupant is back. */
  lemma FinalizeValid(plan: Plan, d: Disk, journal: Journal)
    ensures journal.state == Reversed && journal.displaced.Some? ==>
              ValidTransition(journal, Journal(Finalized, journal.displaced)) &&
              (d.target == journal.displaced ==> LinkAuthentic(plan, d, journal))
  {
  }

  lemma InstalledFacts(plan: Plan, d: Disk, o: Entry)
    ensures Phase(plan, d, o) ==> plan.snapshot.Snapshot? && d.record.Some?
    ensures Phase(plan, d, o) && d.target == Some(plan.candidate) ==>
              var j := d.record.value.journal;
              && d.peer == Some(o)
              && (j.state == Exchanged || j.state == ParentSynced ==>
                   j.displaced == Some(o) && LinkAuthentic(plan, d, j))
  {
  }

  // ---------------------------------------------------------------- the transaction

  datatype Disposition = Unchanged | Installed | Restored | RecoveryRequired

  /** The disposition a call reports; none when the process crashed in it. */
  type Outcome = Option<Disposition>

  datatype End = Closed | NeedsRecovery | Interrupted

  /** What recovery reads of the two cells. */
  datatype Found = Found(targetCandidate: bool, peerCandidate: bool, targetOriginal: bool, targetDisplaced: bool,
                         peer: Option<Entry>)

  predicate Original(plan: Plan, d: Disk) {
    if plan.snapshot.Absent? then d.target.None? else d.target.Some? && Matches(d.target.value, plan.snapshot)
  }

  function Facts(plan: Plan, d: Disk, journal: Journal): Found {
    Found(d.target == Some(plan.candidate), d.peer == Some(plan.candidate), Original(plan, d),
          journal.displaced.Some? && d.target == journal.displaced, d.peer)
  }

  /** Everything found is so; a failed read finds nothing. */
  predicate Sound(plan: Plan, d: Disk, journal: Journal, found: Found) {
    var facts := Facts(plan, d, journal);
    && (found.targetCandidate ==> facts.targetCandidate) && (found.peerCandidate ==> facts.peerCandidate)
    && (found.targetOriginal ==> facts.targetOriginal) && (found.targetDisplaced ==> facts.targetDisplaced)
  }

  lemma OriginalCases(plan: Plan, d: Disk, o: Entry)
    ensures Phase(plan, d, o) ==>
              (d.target == Some(o) ==> (Original(plan, d) <==> Matches(o, plan.snapshot))) &&
              (d.record.value.journal.state == Prepared ==>
                 d.record.value.journal.displaced.None? &&
                 ValidTransition(d.record.value.journal, Journal(Finalized, None)))
  {
  }

  /** With the occupant back, an exchanged journal may record that, and authenticates. */
  lemma BackCases(plan: Plan, d: Disk, o: Entry)
    ensures Phase(plan, d, o) && d.peer == Some(plan.candidate) ==>
              var Record(g, j) := d.record.value;
              && g < 5 && (j.displaced.Some? ==> j.displaced == Some(o))
              && (j.displaced.Some? ==> j.state == Exchanged || j.state == ParentSynced || j.state == Reversed)
              && (j.state == Exchanged ==>
                   LinkAuthentic(plan, d, j) && ValidTransition(j, Journal(Reversed, j.displaced)))
  {
  }

  /** What the exchange back of an installed candidate may rely on. */
  lemma ExchangeFacts(plan: Plan, d: Disk, o: Entry)
    ensures Phase(plan, d, o) && d.target == Some(plan.candidate) ==>
              var Record(g, j) := d.record.value;
              && d.peer == Some(o)
              && (j.state == Exchanged || j.state == ParentSynced ==>
                    g < 5 && j.displaced == Some(o) && LinkAuthentic(plan, Swapped(d), j))
  {
  }

  lemma ReversedFacts(plan: Plan, d: Disk, o: Entry)
    ensures Phase(plan, d, o) && d.record.value.journal.state == Reversed ==>
              d.target == Some(o) && d.record.value.journal.displaced == Some(o) && d.peer == Some(plan.candidate) &&
              d.record.value.generation < 5
  {
  }

  lemma FinishedIsSettled(plan: Plan, d: Disk, d': Disk, o: Entry)
    ensures Phase(plan, d, o) && d.target == Some(o) && d'.target == d.target && (d' == d || Over(d')) ==>
              Phase(plan, d', o) || Settled(d', o)
  {
  }

  lemma ParentFacts(plan: Plan, d: Disk, o: Entry)
    ensures var j, next := Journal(Exchanged, Some(o)), Journal(ParentSynced, Some(o));
            && ValidTransition(j, next)
            && (Phase(plan, d, o) && d.target == Some(plan.candidate) ==>
                 LinkAuthentic(plan, d, j) && d.peer == Some(o))
  {
  }

  /** With the candidate in place, a prepared journal may record the exchange. */
  lemma InstalledCases(plan: Plan, d: Disk, o: Entry)
    ensures Phase(plan, d, o) && d.target == Some(plan.candidate) ==>
              var Record(g, j) := d.record.value;
              && d.peer == Some(o)
              && (j.state == Prepared ==> LinkAuthentic(plan, d, j) && ValidTransition(j, Journal(Exchanged, Some(o))))
  {
  }

  class Transaction {
    const plan: Plan
    const env: Environment
    var disk: Disk
    var clock: nat
    var journal: Journal
    var generation: nat
    var disposition: Disposition
    var closed: bool

    /** A transaction whose journal was just prepared. */
    constructor (plan: Plan, env: Environment, disk: Disk)
      ensures this.plan == plan && this.env == env && this.disk == disk
      ensures journal == Journal(Prepared, None) && generation == 1 && disposition == Unchanged && !closed && clock == 0
    {
      this.plan := plan;
      this.env := env;
      this.disk := disk;
      clock := 0;
      journal := Journal(Prepared, None);
      generation := 1;
      disposition := Unchanged;
      closed := false;
    }

    /** The same transaction, facing what the environment does from here on. */
    constructor Continued(before: Transaction, env: Environment)
      ensures this.plan == before.plan && this.env == env && this.disk == before.disk && clock == 0
      ensures journal == before.journal && generation == before.generation
      ensures disposition == before.disposition && closed == before.closed
    {
      this.plan := before.plan;
      this.env := env;
      this.disk := before.disk;
      clock := 0;
      journal := before.journal;
      generation := before.generation;
      disposition := before.disposition;
      closed := before.closed;
    }

    /** Nobody else acts any more. */
    ghost predicate Calm()
      reads `clock
    {
      QuietFrom(env, clock)
    }

    /** Since turn `k`, on disk `d`, only others acted on the target and the link. */
    ghost predicate Left(d: Disk, k: nat)
      reads `disk, `clock
    {
      k <= clock && disk.target == TargetSeen(d.target, env, k, clock) && disk.link == LinkSeen(d.link, env, k, clock)
    }

    /** What others left in the target since turn `k`, on disk `d`, is the occupant of the install. */
    ghost predicate Holding(d: Disk, k: nat)
      reads `disk, `clock
    {
      var o := TargetSeen(d.target, env, k, clock);
      k <= clock && (o.Some? && LinkHeld(plan, LinkSeen(d.link, env, k, clock)) ==> Phase(plan, disk, o.value))
    }

    /** An installed candidate with the entry it displaced as the peer, and the link as it was captured. */
    predicate InPlace()
      reads `disk, `journal, `generation
    {
      && Synced() && journal.state == ParentSynced && journal.displaced.Some? && disk.peer == journal.displaced
      && disk.target == Some(plan.candidate) && plan.snapshot.Snapshot?
      && CurrentTopology(plan, disk) == plan.requested
    }

    predicate Synced()
      reads `disk, `journal, `generation
    {
      disk.record == Some(Record(generation, journal))
    }

    // -------------------------------------------------------------- single steps

    method Tick() returns (turn: Turn)
      modifies `disk, `clock
      ensures Left(old(disk), old(clock))
      ensures old(Calm()) ==> Calm()
      ensures clock == old(clock) + 1 && turn == env(old(clock)) && disk == Interfered(old(disk), turn)
      ensures old(Calm()) ==> turn.authentic && disk == old(disk)
    {
      turn := env(clock);
      SeenOneTurn(disk, env, clock);
      clock := clock + 1;
      disk := Interfered(disk, turn);
    }

    /** A step that only observes or synchronizes. */
    method Observe() returns (check: Check)
      modifies `disk, `clock
      ensures Left(old(disk), old(clock)) && clock == old(clock) + 1
      ensures (old(Calm()) ==> Calm()) && (FaultFree(env) ==> check != Stopped)
      ensures Watched(old(disk), disk) && (old(Calm()) ==> disk == old(disk))
      ensures FaultFree(env) ==> check == Yes
      ensures Fine(env(old(clock))) ==> check == Yes && disk == old(disk)
    {
      hide QuietFrom, TargetSeen, LinkSeen;
      var turn := Tick();
      Interfering(old(disk), turn);
      check := CheckOf(turn);
    }

    method TargetIs(e: Entry) returns (check: Check)
      modifies `disk, `clock
      ensures Left(old(disk), old(clock)) && clock == old(clock) + 1
      ensures (old(Calm()) ==> Calm()) && (FaultFree(env) ==> check != Stopped)
      ensures Watched(old(disk), disk) && (old(Calm()) ==> disk == old(disk))
      ensures check == Yes ==> disk.target == Some(e)
      ensures FaultFree(env) ==> check == if disk.target == Some(e) then Yes else No
      ensures Fine(env(old(clock))) ==> disk == old(disk) && check == if disk.target == Some(e) then Yes else No
    {
      hide Fine, QuietFrom, TargetSeen, LinkSeen;
      var read := Observe();
      check := if read == Yes && disk.target != Some(e) then No else read;
    }

    method PeerIs(e: Entry) returns (check: Check)
      modifies `disk, `clock
      ensures Left(old(disk), old(clock)) && clock == old(clock) + 1
      ensures (old(Calm()) ==> Calm()) && (FaultFree(env) ==> check != Stopped)
      ensures Watched(old(disk), disk) && (old(Calm()) ==> disk == old(disk))
      ensures check == Yes ==> disk.peer == Some(e)
      ensures FaultFree(env) ==> check == if disk.peer == Some(e) then Yes else No
      ensures Fine(env(old(clock))) ==> disk == old(disk) && check == if disk.peer == Some(e) then Yes else No
    {
      hide Fine, QuietFrom, TargetSeen, LinkSeen;
      var read := Observe();
      check := if read == Yes && disk.peer != Some(e) then No else read;
    }

    /** The target is still what was captured. */
    method ExpectedTargetStillCurrent() returns (check: Check)
      modifies `disk, `clock
      ensures Left(old(disk), old(clock)) && clock == old(clock) + 1
      ensures (old(Calm()) ==> Calm()) && (FaultFree(env) ==> check != Stopped)
      ensures Watched(old(disk), disk) && (old(Calm()) ==> disk == old(disk))
      ensures check == Yes ==> Original(plan, disk)
      ensures FaultFree(env) ==> check == if Original(plan, disk) then Yes else No
    {
      var read := Observe();
      check := if read == Yes && !Original(plan, disk) then No else read;
    }

    /** Two atomic cells change places; nothing else changes, whatever the report. */
    method Exchange() returns (r: Rename)
      modifies `disk, `clock
      ensures clock == old(clock) + 1
      ensures (old(Calm()) ==> Calm()) && (FaultFree(env) ==> r != RenameCrashed)
      ensures var d := Interfered(old(disk), env(old(clock)));
              disk == d || (d.target.Some? && d.peer.Some? && disk == Swapped(d))
      ensures disk.record == old(disk).record && disk.removed == old(disk).removed
      ensures Conserved(old(disk)) ==> Conserved(disk)
      ensures r == Renamed || r == RenameFailed || r == RenameUnsupported || r == RenameCrashed
      ensures r == Renamed ==> disk == Swapped(Interfered(old(disk), env(old(clock))))
      ensures r == RenameUnsupported ==> disk == Interfered(old(disk), env(old(clock)))
      ensures FaultFree(env) && env(old(clock)).authentic && Interfered(old(disk), env(old(clock))).target.Some? &&
              old(disk).peer.Some? ==>
                r == Renamed
      ensures old(Calm()) ==> disk == old(disk) || disk == Swapped(old(disk))
      ensures old(Calm()) && r == RenameUnsupported ==> disk == old(disk)
      ensures old(Calm()) && r == Renamed ==> disk == Swapped(old(disk))
      ensures old(Calm()) && FaultFree(env) && old(disk).target.Some? && old(disk).peer.Some? ==> r == Renamed
      ensures CrashesAfter(env(old(clock))) && old(disk).target.Some? && old(disk).peer.Some? ==>
                r == RenameCrashed && disk == Swapped(old(disk))
    {
      hide QuietFrom, TargetSeen, LinkSeen;
      var turn := Tick();
      Interfering(old(disk), turn);
      var moved := Applies(turn) && disk.target.Some? && disk.peer.Some?;
      if moved {
        if Conserved(disk) {
          SwapConserves(disk);
        }
        disk := Swapped(disk);
      }
      r := if turn.report == Crashed then RenameCrashed
           else if moved && turn.report == Done then Renamed
           else if !moved && turn.authentic && turn.report == Unsupported then RenameUnsupported
           else RenameFailed;
    }

    /** Moves the peer to an absent target. */
    method RenameNoReplace() returns (r: Rename)
      modifies `disk, `clock
      ensures (old(Calm()) ==> Calm()) && (FaultFree(env) ==> r != RenameCrashed) && old(clock) <= clock
      ensures var d := Interfered(old(disk), env(old(clock)));
              disk == d || (d.target.None? && d.peer.Some? && disk == Swapped(d))
      ensures disk.record == old(disk).record && disk.removed == old(disk).removed
      ensures Conserved(old(disk)) ==> Conserved(disk)
      ensures r == Renamed ==> disk.peer.None?
      ensures r == Occupied || r == RenameUnsupported ==> disk.peer == old(disk).peer
      ensures old(Calm()) ==> disk == old(disk) || (old(disk).target.None? && disk == Swapped(old(disk)))
      ensures old(Calm()) && FaultFree(env) && old(disk).peer.Some? ==>
                r == if old(disk).target.None? then Renamed else Occupied
    {
      hide QuietFrom, TargetSeen, LinkSeen;
      var turn := Tick();
      Interfering(old(disk), turn);
      var moved := Applies(turn) && disk.target.None? && disk.peer.Some?;
      var occupied := Applies(turn) && disk.target.Some?;
      if moved {
        if Conserved(disk) {
          SwapConserves(disk);
        }
        disk := Swapped(disk);
      }
      r := if turn.report == Crashed then RenameCrashed
           else if moved && turn.report == Done then Renamed
           else if !moved && turn.authentic && turn.report == Unsupported then RenameUnsupported
           else if occupied && turn.report == Done then Occupied
           else RenameFailed;
    }

    method RemovePeer() returns (check: Check)
      requires disk.peer.Some?
      modifies `disk, `clock
      ensures Left(old(disk), old(clock))
      ensures (old(Calm()) ==> Calm()) && (FaultFree(env) ==> check != Stopped)
      ensures Conserved(old(disk)) ==> Conserved(disk)
      ensures disk.record == old(disk).record
      ensures (disk.peer == old(disk).peer && disk.removed == old(disk).removed) ||
              (disk.peer.None? && disk.removed == old(disk).removed + Held(old(disk).peer))
      ensures check == Yes ==> disk.peer.None?
      ensures old(Calm()) ==> disk.target == old(disk).target
      ensures old(Calm()) && FaultFree(env) ==> check == Yes
    {
      hide QuietFrom, TargetSeen, LinkSeen;
      var turn := Tick();
      Interfering(old(disk), turn);
      if Applies(turn) {
        if Conserved(disk) {
          RemoveConserves(disk);
        }
        disk := Removed(disk);
      }
      check := if CheckOf(turn) == Yes && !Applies(turn) then No else CheckOf(turn);
    }

    method WriteRecord(next: Option<Record>) returns (check: Check)
      modifies `disk, `clock
      ensures Left(old(disk), old(clock))
      ensures (old(Calm()) ==> Calm()) && (FaultFree(env) ==> check != Stopped)
      ensures disk.peer == old(disk).peer && disk.removed == old(disk).removed
      ensures Conserved(old(disk)) ==> Conserved(disk)
      ensures disk.record == old(disk).record || disk.record == next
      ensures check == Yes ==> disk.record == next
      ensures old(Calm()) ==> disk == old(disk) || disk == old(disk).(record := next)
      ensures FaultFree(env) ==> check == Yes
    {
      hide QuietFrom, TargetSeen, LinkSeen;
      var turn := Tick();
      Interfering(old(disk), turn);
      if Applied(turn) {
        disk := disk.(record := next);
      }
      check := CheckOf(turn);
    }

    // -------------------------------------------------------------- authentication and journal

    method Authenticate() returns (check: Check)
      modifies `disk, `clock
      ensures Left(old(disk), old(clock))
      ensures (old(Calm()) ==> Calm()) && (FaultFree(env) ==> check != Stopped)
      ensures Watched(old(disk), disk) && (old(Calm()) ==> disk == old(disk))
      ensures check == Yes ==> Synced()
      ensures old(Calm()) && check == Yes ==> LinkAuthentic(plan, disk, journal)
      ensures old(Calm()) && FaultFree(env) ==>
                check == if Synced() && LinkAuthentic(plan, disk, journal) then Yes else No
      ensures plan.snapshot.Snapshot? && journal.state == Prepared ==>
                old(clock) < clock <= old(clock) + 2 && (check == Yes ==> clock == old(clock) + 2)
      ensures plan.snapshot.Snapshot? && journal.state == Prepared && FaultFree(env) && Synced() &&
              env(old(clock)).authentic && LinkAuthentic(plan, disk, journal) ==>
                check == Yes
      ensures Fine(env(old(clock))) && Fine(env(old(clock) + 1)) && plan.snapshot.Snapshot? && Synced() &&
              journal.state == ParentSynced && CurrentTopology(plan, old(disk)) == plan.requested ==>
                check == Yes && clock == old(clock) + 2 && disk == old(disk)
    {
      hide QuietFrom, FaultFree, TargetSeen, LinkSeen, LinkAuthentic, CurrentTopology, Fine, Interfered, Conserved;
      check := AuthenticateRecord();
      if check != Yes {
        return;
      }
      ghost var at := clock;
      check := AuthenticateLink();
      SeenThrough(old(disk).target, old(disk).link, env, old(clock), at, clock);
    }

    /** The private directory authenticates and the stored record is the one in memory. */
    method AuthenticateRecord() returns (check: Check)
      modifies `disk, `clock
      ensures Left(old(disk), old(clock)) && clock == old(clock) + 1
      ensures (old(Calm()) ==> Calm()) && (FaultFree(env) ==> check != Stopped)
      ensures Watched(old(disk), disk) && (old(Calm()) ==> disk == old(disk))
      ensures check == Yes ==> Synced()
      ensures FaultFree(env) && (env(old(clock)).authentic || old(Calm())) ==> check == if Synced() then Yes else No
      ensures Fine(env(old(clock))) ==> disk == old(disk) && check == if Synced() then Yes else No
    {
      hide QuietFrom, TargetSeen, LinkSeen;
      var turn := Tick();
      Interfering(old(disk), turn);
      check := CheckOf(turn);
      if check == Yes && (!turn.authentic || !Synced()) {
        check := No;
      }
    }

    method AuthenticateLink() returns (check: Check)
      modifies `disk, `clock
      ensures Left(old(disk), old(clock))
      ensures (old(Calm()) ==> Calm()) && (FaultFree(env) ==> check != Stopped)
      ensures Watched(old(disk), disk) && (old(Calm()) ==> disk == old(disk))
      ensures old(Calm()) && check == Yes ==> LinkAuthentic(plan, disk, journal)
      ensures old(Calm()) && FaultFree(env) ==> check == if LinkAuthentic(plan, disk, journal) then Yes else No
      ensures plan.snapshot.Snapshot? && journal.state == Prepared ==> clock == old(clock) + 1
      ensures plan.snapshot.Snapshot? && journal.state == Prepared && FaultFree(env) &&
              LinkAuthentic(plan, disk, journal) ==>
                check == Yes
      ensures Fine(env(old(clock))) && plan.snapshot.Snapshot? && journal.state == ParentSynced &&
              CurrentTopology(plan, old(disk)) == plan.requested ==>
                check == Yes && clock == old(clock) + 1 && disk == old(disk)
    {
      hide Fine, QuietFrom, TargetSeen, LinkSeen;
      SeenComposes(env);
      check := Observe();
      if check != Yes {
        return;
      }
      var topology := CurrentTopology(plan, disk);
      if journal.state == Reversed {
        if journal.displaced.None? {
          return No;
        }
        check := TargetIs(journal.displaced.value);
      } else if plan.snapshot.Snapshot? {
        if topology == plan.requested {
          return Yes;
        }
        if journal.state != Exchanged || journal.displaced.None? {
          return No;
        }
        check := TargetIs(journal.displaced.value);
      } else if journal.state == Prepared {
        check := if topology.symlink then No else Yes;
      } else {
        check := if topology.present && !topology.symlink then Yes else No;
      }
    }

    /** Authenticates, writes the next record beside the old one, and reads it back. */
    method WriteJournalTransition(state: PromotionState, displaced: Option<Entry>) returns (check: Check)
      modifies `disk, `clock, `journal, `generation
      ensures Left(old(disk), old(clock))
      ensures (old(Calm()) ==> Calm()) && (FaultFree(env) ==> check != Stopped)
      ensures var next := Journal(state, displaced);
              && Recorded(old(disk), disk, Record(old(generation) + 1, next))
              && (disk.record != old(disk).record ==> old(Synced()) && ValidTransition(old(journal), next))
      ensures check == Yes ==>
                && old(Synced()) && ValidTransition(old(journal), Journal(state, displaced))
                && journal == Journal(state, displaced) && generation == old(generation) + 1 && Synced()
      ensures old(Calm()) ==> disk == old(disk).(record := disk.record)
      ensures old(Calm()) && disk.record != old(disk).record ==> old(LinkAuthentic(plan, disk, journal))
      ensures old(Calm()) && FaultFree(env) ==>
                check == if old(Synced()) && old(LinkAuthentic(plan, disk, journal)) &&
                            ValidTransition(old(journal), Journal(state, displaced)) && old(generation) < MAX_GENERATION
                         then Yes else No
    {
      SeenComposes(env);
      hide TargetSeen, LinkSeen, QuietFrom, FaultFree, LinkAuthentic, ValidTransition, Conserved;
      var authentic := Authenticate();
      if authentic != Yes {
        return authentic;
      }
      var next := Journal(state, displaced);
      if !ValidTransition(journal, next) || generation >= MAX_GENERATION {
        return No;
      }
      var written := StoreRecord(Record(generation + 1, next));
      if written != Yes {
        return written;
      }
      journal := next;
      generation := generation + 1;
      check := Observe();
    }

    /** Writes a record, synchronizes it and reads it back. */
    method StoreRecord(next: Record) returns (check: Check)
      modifies `disk, `clock
      ensures Left(old(disk), old(clock))
      ensures (old(Calm()) ==> Calm()) && (FaultFree(env) ==> check != Stopped)
      ensures Recorded(old(disk), disk, next)
      ensures check == Yes ==> disk.record == Some(next)
      ensures old(Calm()) ==> disk == old(disk).(record := disk.record)
      ensures FaultFree(env) ==> check == Yes
    {
      hide QuietFrom, TargetSeen, LinkSeen;
      SeenComposes(env);
      check := WriteRecord(Some(next));
      if check != Yes {
        return;
      }
      check := Observe();
      if check != Yes {
        return;
      }
      check := Observe();
      if check == Yes && disk.record != Some(next) {
        check := No;
      }
    }

    // -------------------------------------------------------------- promotion

    /** Gives up without further changes: the artifacts stay for a later recovery. */
    method Retain(check: Check) returns (outcome: Outcome)
      modifies `disposition
      ensures outcome == if check == Stopped then None else Some(RecoveryRequired)
      ensures outcome.Some? ==> disposition == RecoveryRequired
    {
      if check == Stopped {
        return None;
      }
      disposition := RecoveryRequired;
      outcome := Some(RecoveryRequired);
    }

    /** A finished promotion over an existing target keeps its exact original as the peer. */
    predicate Holds()
      reads `disk, `journal, `generation, `disposition
    {
      && (disposition == Installed && plan.snapshot.Snapshot? ==>
            && journal.state == ParentSynced && journal.displaced.Some? &&
               Matches(journal.displaced.value, plan.snapshot)
            && disk.peer == journal.displaced && Synced())
      && (disposition == Installed && plan.snapshot.Absent? ==> journal == Journal(ParentSynced, None))
      && (disposition == Restored ==>
            && journal.state == Reversed && journal.displaced.Some? && !Matches(journal.displaced.value, plan.snapshot)
            && Synced())
    }

    /**
     * What a promotion that displaced `found` comes to: an install over the captured original,
     * and otherwise a reversal that puts the late substitute back.
     */
    ghost predicate Decided(found: Option<Entry>, outcome: Outcome)
      reads `disk
    {
      found.Some? ==>
        if Matches(found.value, plan.snapshot) then
          outcome == Some(Installed) && disk.target == Some(plan.candidate) && disk.peer == found
        else outcome == Some(Restored) && disk.target == found && disk.peer == Some(plan.candidate)
    }

    /**
     * Exchanges the candidate with what the target holds by then. The link, the target and the
     * peer are read in the first turns; others may act in all of them and in the exchange's own.
     */
    method Promote() returns (outcome: Outcome)
      requires journal == Journal(Prepared, None) && generation == 1 && disposition == Unchanged
      modifies `disk, `clock, `journal, `generation, `disposition
      ensures (old(Calm()) ==> Calm()) && (FaultFree(env) ==> outcome.Some?) && old(clock) <= clock
      ensures Intact(old(disk), disk) && (outcome.Some? ==> disposition == outcome.value && Holds())
      ensures Ready(plan, old(disk)) && QuietFrom(env, old(clock) + EXCHANGE_TURNS) ==> Holding(old(disk), old(clock))
      ensures Ready(plan, old(disk)) && QuietFrom(env, old(clock) + EXCHANGE_TURNS) &&
              (outcome == Some(Unchanged) || outcome == Some(Restored)) ==>
                disk.peer == Some(plan.candidate)
      ensures plan.snapshot.Snapshot? && clock < old(clock) + EXCHANGE_TURNS ==>
                Left(old(disk), old(clock)) && outcome != Some(Installed) && outcome != Some(Restored)
      ensures FaultFree(env) && !closed && Ready(plan, old(disk)) && old(disk).target.Some? &&
              Matches(old(disk).target.value, plan.snapshot) && LinkHeld(plan, old(disk).link) &&
              QuietUntil(env, old(clock), old(clock) + EXCHANGE_TURNS - 1) &&
              LateAt(env, old(clock) + EXCHANGE_TURNS - 1) ==>
                Decided(TargetSeen(old(disk).target, env, old(clock), old(clock) + EXCHANGE_TURNS), outcome)
      ensures old(Calm()) && FaultFree(env) && !closed && Vacant(plan, old(disk)) ==>
                && outcome == Some(Installed) && journal == Journal(ParentSynced, None) && Synced() && generation == 3
                && disk == Swapped(old(disk)).(record := disk.record)
    {
      FirstTurns(disk, env, clock);
      hide QuietFrom, FaultFree, Conserved, LinkAuthentic, Matches, Phase, Interfered, Original, TargetSeen,
           LinkSeen, LinkHeld, QuietUntil;
      var ready;
      ready, outcome := ReadyToExchange();
      ghost var at := clock;
      if !ready {
        return;
      }
      if plan.snapshot.Absent? {
        outcome := PromoteAbsent();
      } else {
        outcome := PromoteExisting();
        SeenThrough(old(disk).target, old(disk).link, env, old(clock), at, clock);
        SeenThrough(old(disk).target, old(disk).link, env, old(clock), at, at + 1);
      }
    }

    /** The checks before an exchange. */
    method ReadyToExchange() returns (ready: bool, outcome: Outcome)
      requires journal == Journal(Prepared, None) && generation == 1 && disposition == Unchanged
      modifies `disk, `clock, `disposition
      ensures Left(old(disk), old(clock)) && Watched(old(disk), disk)
      ensures (old(Calm()) ==> Calm()) && (FaultFree(env) ==> ready || outcome.Some?)
      ensures ready ==>
                disposition == Unchanged && (plan.snapshot.Snapshot? ==> clock == old(clock) + EXCHANGE_TURNS - 1)
      ensures !ready ==> outcome != Some(Installed) && outcome != Some(Restored)
      ensures !ready && outcome.Some? ==> disposition == outcome.value
      ensures !ready && Ready(plan, old(disk)) ==> Holding(old(disk), old(clock))
      ensures FaultFree(env) && !closed && Ready(plan, old(disk)) && old(disk).target.Some? &&
              Matches(old(disk).target.value, plan.snapshot) && LinkHeld(plan, old(disk).link) &&
              QuietUntil(env, old(clock), old(clock) + EXCHANGE_TURNS - 1) ==>
                ready
      ensures old(Calm()) && FaultFree(env) && !closed && Vacant(plan, old(disk)) ==> ready && disk == old(disk)
    {
      VacantFacts(plan, disk);
      FirstTurns(disk, env, clock);
      SeenOneTurn(disk, env, clock);
      StillReady(plan, disk, disk);
      hide Vacant, QuietFrom, FaultFree, Conserved, LinkAuthentic, Matches, Phase, Interfered, Original, TargetSeen,
           LinkSeen, LinkHeld, QuietUntil;
      ready := false;
      if closed {
        outcome := Retain(No);
        return;
      }
      var check := Authenticate();
      StillReady(plan, old(disk), disk);
      if check != Yes {
        outcome := Retain(check);
        return;
      }
      ghost var at := clock;
      check := StillCurrent();
      SeenThrough(old(disk).target, old(disk).link, env, old(clock), at, clock);
      StillReady(plan, old(disk), disk);
      if check != Yes {
        outcome := if check == Stopped then None else Some(Unchanged);
        return;
      }
      ready, outcome := true, None;
    }

    /** Target and peer are still the captured original and the candidate. */
    method StillCurrent() returns (check: Check)
      modifies `disk, `clock
      ensures Left(old(disk), old(clock))
      ensures (old(Calm()) ==> Calm()) && (FaultFree(env) ==> check != Stopped)
      ensures Watched(old(disk), disk) && (old(Calm()) ==> disk == old(disk))
      ensures check == Yes ==> clock == old(clock) + 2
      ensures FaultFree(env) && env(old(clock)).replace.None? && Original(plan, old(disk)) &&
              old(disk).peer == Some(plan.candidate) ==>
                check == Yes
      ensures old(Calm()) && FaultFree(env) && Original(plan, old(disk)) && old(disk).peer == Some(plan.candidate) ==>
                check == Yes
    {
      SeenComposes(env);
      SeenOneTurn(disk, env, clock);
      check := ExpectedTargetStillCurrent();
      if check == Yes {
        check := PeerIs(plan.candidate);
      }
    }

    method PromoteAbsent() returns (outcome: Outcome)
      requires journal == Journal(Prepared, None) && disposition == Unchanged && plan.snapshot.Absent?
      modifies `disk, `clock, `journal, `generation, `disposition
      ensures (old(Calm()) ==> Calm()) && (FaultFree(env) ==> outcome.Some?) && old(clock) <= clock
      ensures Intact(old(disk), disk) && (outcome.Some? ==> disposition == outcome.value && disposition != Restored)
      ensures outcome == Some(Installed) ==>
                journal == Journal(ParentSynced, None) && disk.peer.None? && Synced() &&
                  generation == old(generation) + 2
      ensures old(Calm()) && FaultFree(env) && Vacant(plan, old(disk)) && old(generation) == 1 ==>
                outcome == Some(Installed) && disk == Swapped(old(disk)).(record := disk.record)
    {
      VacantFacts(plan, disk);
      hide Vacant, Swapped, ValidTransition, QuietFrom, FaultFree, Conserved, LinkAuthentic, Interfered, TargetSeen,
           LinkSeen;
      var renamed := RenameNoReplace();
      if renamed == Occupied || renamed == RenameUnsupported {
        return Some(Unchanged);
      }
      if renamed != Renamed {
        outcome := Retain(if renamed == RenameCrashed then Stopped else No);
        return;
      }
      var check := CandidateOver(false);
      if check == Yes {
        check := WriteJournalTransition(Created, None);
      }
      if check == Yes {
        check := Observe();
      }
      if check == Yes {
        check := WriteJournalTransition(ParentSynced, None);
      }
      if check != Yes {
        outcome := Retain(check);
        return;
      }
      disposition := Installed;
      outcome := Some(Installed);
    }

    method PromoteExisting() returns (outcome: Outcome)
      requires journal == Journal(Prepared, None) && generation == 1 && disposition == Unchanged
      requires plan.snapshot.Snapshot?
      modifies `disk, `clock, `journal, `generation, `disposition
      ensures (old(Calm()) ==> Calm()) && (FaultFree(env) ==> outcome.Some?) && old(clock) < clock
      ensures Intact(old(disk), disk) && (outcome.Some? ==> disposition == outcome.value && Holds())
      ensures Ready(plan, old(disk)) && QuietFrom(env, old(clock) + 1) ==> Holding(old(disk), old(clock))
      ensures Ready(plan, old(disk)) && QuietFrom(env, old(clock) + 1) &&
              (outcome == Some(Unchanged) || outcome == Some(Restored)) ==>
                disk.peer == Some(plan.candidate)
      ensures FaultFree(env) && Ready(plan, old(disk)) && LateAt(env, old(clock)) && LinkHeld(plan, old(disk).link) ==>
                Decided(TargetSeen(old(disk).target, env, old(clock), old(clock) + 1), outcome)
    {
      hide QuietFrom, FaultFree, Conserved, LinkAuthentic, Matches, Phase, Interfered, TargetSeen, LinkSeen, LinkHeld;
      var renamed, found := ExchangeOver();
      ghost var at := clock;
      if renamed == RenameUnsupported {
        return Some(Unchanged);
      }
      if renamed != Renamed {
        outcome := Retain(if renamed == RenameCrashed then Stopped else No);
        return;
      }
      outcome := Exchanging(found);
      SeenThrough(old(disk).target, old(disk).link, env, old(clock), at, clock);
      if QuietFrom(env, at) {
        SeenStays(found, LinkSeen(old(disk).link, env, old(clock), at), env, at, clock);
      }
    }

    /** Exchanges the candidate with `found`, what others left in the target up to this turn. */
    method ExchangeOver() returns (r: Rename, ghost found: Option<Entry>)
      requires plan.snapshot.Snapshot?
      modifies `disk, `clock
      ensures clock == old(clock) + 1 && (old(Calm()) ==> Calm()) && (FaultFree(env) ==> r != RenameCrashed)
      ensures Intact(old(disk), disk) && disk.record == old(disk).record
      ensures found == TargetSeen(old(disk).target, env, old(clock), clock)
      ensures disk.link == LinkSeen(old(disk).link, env, old(clock), clock)
      ensures Ready(plan, old(disk)) && found.Some? && LinkHeld(plan, disk.link) ==> Phase(plan, disk, found.value)
      ensures r == RenameUnsupported ==> disk.peer == old(disk).peer
      ensures r == Renamed ==> disk.target == old(disk).peer
      ensures FaultFree(env) && LateAt(env, old(clock)) && found.Some? && old(disk).peer.Some? ==>
                r == Renamed && disk.link == old(disk).link
    {
      ghost var before := Interfered(disk, env(clock));
      found := before.target;
      SeenOneTurn(disk, env, clock);
      Interfering(disk, env(clock));
      if Ready(plan, disk) && found.Some? && LinkHeld(plan, before.link) {
        ReadyIsPhase(plan, before, found.value);
      }
      hide QuietFrom, FaultFree, Conserved, Phase, TargetSeen, LinkSeen, LinkHeld, Matches;
      r := Exchange();
    }

    /** After the exchange: records what it displaced, and reverses it if that is not the original. */
    method Exchanging(ghost found: Option<Entry>) returns (outcome: Outcome)
      requires journal == Journal(Prepared, None) && generation == 1 && plan.snapshot.Snapshot?
      modifies `disk, `clock, `journal, `generation, `disposition
      ensures (old(Calm()) ==> Calm()) && (FaultFree(env) ==> outcome.Some?) && old(clock) <= clock
      ensures Intact(old(disk), disk) && (outcome.Some? ==> disposition == outcome.value != Unchanged && Holds())
      ensures old(Calm()) && found.Some? && Phase(plan, old(disk), found.value) ==> Phase(plan, disk, found.value)
      ensures old(Calm()) && outcome == Some(Restored) ==> disk.peer == Some(plan.candidate)
      ensures old(Calm()) && FaultFree(env) && found.Some? && Phase(plan, old(disk), found.value) && old(Synced()) &&
              old(disk).target == Some(plan.candidate) ==>
                Decided(found, outcome)
    {
      ghost var o := if found.Some? then found.value else plan.candidate;
      if Phase(plan, disk, o) {
        PhaseFacts(plan, disk, o);
      }
      hide Decided, Original, QuietFrom, FaultFree, Conserved, LinkAuthentic, Matches, Phase, Interfered, TargetSeen,
           LinkSeen;
      var check := CandidateOver(true);
      if check != Yes {
        outcome := Retain(check);
        return;
      }
      outcome := Displacing(o, disk.peer.value);
    }

    /** The target is the candidate, and there is a peer or there is none. */
    method CandidateOver(expected: bool) returns (check: Check)
      modifies `disk, `clock
      ensures (old(Calm()) ==> Calm()) && (FaultFree(env) ==> check != Stopped) && old(clock) <= clock
      ensures Watched(old(disk), disk) && (old(Calm()) ==> disk == old(disk))
      ensures check == Yes ==> disk.peer.Some? == expected
      ensures old(Calm()) && check == Yes ==> disk.target == Some(plan.candidate)
      ensures old(Calm()) && FaultFree(env) && disk.target == Some(plan.candidate) && disk.peer.Some? == expected ==>
                check == Yes
    {
      hide QuietFrom, FaultFree, Conserved, Interfered, TargetSeen, LinkSeen;
      check := TargetIs(plan.candidate);
      if check == Yes {
        check := Observe();
      }
      if check == Yes && disk.peer.Some? != expected {
        check := No;
      }
    }

    method Displacing(ghost o: Entry, displaced: Entry) returns (outcome: Outcome)
      requires journal == Journal(Prepared, None) && generation == 1 && plan.snapshot.Snapshot?
      requires disk.peer == Some(displaced)
      modifies `disk, `clock, `journal, `generation, `disposition
      ensures (old(Calm()) ==> Calm()) && (FaultFree(env) ==> outcome.Some?) && old(clock) <= clock
      ensures Intact(old(disk), disk) && (outcome.Some? ==> disposition == outcome.value != Unchanged && Holds())
      ensures old(Calm()) && Phase(plan, old(disk), o) && displaced == o ==> Phase(plan, disk, o)
      ensures old(Calm()) && outcome == Some(Restored) ==> disk.peer == Some(plan.candidate)
      ensures old(Calm()) && FaultFree(env) && Phase(plan, old(disk), o) && displaced == o && old(Synced()) &&
              old(disk).target == Some(plan.candidate) ==>
                Decided(Some(o), outcome)
    {
      if Phase(plan, disk, o) {
        PhaseAuthentic(plan, disk, o);
        assert disk.record.Some?;
      }
      hide QuietFrom, FaultFree, Conserved, LinkAuthentic, Matches, Phase, Interfered, TargetSeen, LinkSeen;
      var check := WriteJournalTransition(Exchanged, Some(displaced));
      JournalKeepsPhase(plan, old(disk), disk, o, Record(1, Journal(Prepared, None)),
                        Journal(Exchanged, Some(displaced)));
      if check != Yes {
        outcome := Retain(check);
        return;
      }
      if !Matches(displaced, plan.snapshot) {
        outcome := ReverseLateSubstitution(o, displaced);
        return;
      }
      outcome := SyncParent(o, displaced);
    }

    /** Synchronizes the exchanged directories and records that. */
    method SyncParent(ghost o: Entry, displaced: Entry) returns (outcome: Outcome)
      requires journal == Journal(Exchanged, Some(displaced)) && generation == 2 && Synced()
      requires plan.snapshot.Snapshot? && Matches(displaced, plan.snapshot) && disk.peer == Some(displaced)
      modifies `disk, `clock, `journal, `generation, `disposition
      ensures (old(Calm()) ==> Calm()) && (FaultFree(env) ==> outcome.Some?) && old(clock) <= clock
      ensures Intact(old(disk), disk) && (outcome.Some? ==> disposition == outcome.value && Holds())
      ensures outcome.Some? ==> outcome == Some(Installed) || outcome == Some(RecoveryRequired)
      ensures old(Calm()) && Phase(plan, old(disk), o) && displaced == o ==> Phase(plan, disk, o)
      ensures old(Calm()) && FaultFree(env) && Phase(plan, old(disk), o) && displaced == o &&
              old(disk).target == Some(plan.candidate) ==>
                outcome == Some(Installed) && disk.target == Some(plan.candidate) && disk.peer == Some(o)
    {
      ParentFacts(plan, disk, o);
      hide QuietFrom, FaultFree, Conserved, LinkAuthentic, Matches, Phase, Interfered, ValidTransition, TargetSeen,
           LinkSeen;
      var check := Observe();
      if check == Yes {
        ghost var before := disk;
        check := WriteJournalTransition(ParentSynced, Some(displaced));
        JournalKeepsPhase(plan, before, disk, o, Record(2, Journal(Exchanged, Some(displaced))),
                          Journal(ParentSynced, Some(displaced)));
      }
      if check != Yes {
        outcome := Retain(check);
        return;
      }
      disposition := Installed;
      outcome := Some(Installed);
    }

    /** Exchanges the cells back and records that they were. */
    method ReverseExchange(ghost o: Entry) returns (check: Check)
      requires plan.snapshot.Snapshot? && journal.displaced.Some?
      modifies `disk, `clock, `journal, `generation
      ensures (old(Calm()) ==> Calm()) && (FaultFree(env) ==> check != Stopped) && old(clock) <= clock
      ensures Intact(old(disk), disk)
      ensures check == Yes ==> journal == Journal(Reversed, old(journal).displaced) && Synced()
      ensures old(Calm()) && Phase(plan, old(disk), o) && old(Synced()) && old(disk).target == Some(plan.candidate) ==>
                Phase(plan, disk, o)
      ensures old(Calm()) && check == Yes ==> disk.target == old(disk).peer && disk.peer == old(disk).target
      ensures old(Calm()) && FaultFree(env) && old(Synced()) && old(disk).target.Some? &&
              old(generation) < MAX_GENERATION &&
              (old(journal).state == Exchanged || old(journal).state == ParentSynced) &&
              old(disk).peer == old(journal).displaced && LinkAuthentic(plan, Swapped(old(disk)), old(journal)) ==>
                check == Yes
      ensures CrashesAfter(env(old(clock))) && old(disk).target.Some? && old(disk).peer.Some? ==>
                check == Stopped && disk == Swapped(old(disk))
    {
      ghost var start := disk;
      if Phase(plan, start, o) && Synced() && disk.target == Some(plan.candidate) {
        PhaseFacts(plan, start, o);
        SwapKeepsPhase(plan, start, o);
      }
      hide CrashesAfter, QuietFrom, FaultFree, Conserved, LinkAuthentic, Matches, Phase, Interfered, TargetSeen,
           LinkSeen;
      var renamed := Exchange();
      if renamed != Renamed {
        return if renamed == RenameCrashed then Stopped else No;
      }
      PhaseNamesOccupant(plan, start, o);
      check := RecordReverse(o);
    }

    method RecordReverse(ghost o: Entry) returns (check: Check)
      requires journal.displaced.Some?
      modifies `disk, `clock, `journal, `generation
      ensures (old(Calm()) ==> Calm()) && (FaultFree(env) ==> check != Stopped) && old(clock) <= clock
      ensures Intact(old(disk), disk)
      ensures check == Yes ==> journal == Journal(Reversed, old(journal).displaced) && Synced()
      ensures old(Calm()) ==> disk == old(disk).(record := disk.record)
      ensures old(Calm()) && Phase(plan, old(disk), o) && old(Synced()) && old(journal).displaced == Some(o) &&
              old(disk).target == Some(o) && old(disk).peer == Some(plan.candidate) ==>
                Phase(plan, disk, o)
      ensures old(Calm()) && FaultFree(env) && old(Synced()) && old(generation) < MAX_GENERATION &&
              (old(journal).state == Exchanged || old(journal).state == ParentSynced) &&
              LinkAuthentic(plan, old(disk), old(journal)) ==>
                check == Yes
    {
      ghost var record, next := Record(generation, journal), Journal(Reversed, journal.displaced);
      hide QuietFrom, FaultFree, Conserved, LinkAuthentic, Matches, Phase, Interfered, TargetSeen, LinkSeen;
      check := WriteJournalTransition(Reversed, journal.displaced);
      JournalKeepsPhase(plan, old(disk), disk, o, record, next);
      if check == Yes {
        check := Observe();
      }
    }

    /** Puts back an occupant that was substituted after the target was last checked. */
    method ReverseLateSubstitution(ghost o: Entry, displaced: Entry) returns (outcome: Outcome)
      requires journal == Journal(Exchanged, Some(displaced)) && generation == 2 && Synced()
      requires plan.snapshot.Snapshot? && !Matches(displaced, plan.snapshot)
      modifies `disk, `clock, `journal, `generation, `disposition
      ensures (old(Calm()) ==> Calm()) && (FaultFree(env) ==> outcome.Some?) && old(clock) <= clock
      ensures Intact(old(disk), disk) && (outcome.Some? ==> disposition == outcome.value && Holds())
      ensures outcome.Some? ==> outcome == Some(Restored) || outcome == Some(RecoveryRequired)
      ensures old(Calm()) && Phase(plan, old(disk), o) && displaced == o ==> Phase(plan, disk, o)
      ensures old(Calm()) && outcome == Some(Restored) ==>
                disk.peer == Some(plan.candidate) && disk.target == Some(displaced)
      ensures old(Calm()) && FaultFree(env) && old(disk).target == Some(plan.candidate) &&
              old(disk).peer == Some(displaced) ==>
                outcome == Some(Restored)
    {
      ReversedAuthentic(plan, disk, journal);
      hide QuietFrom, FaultFree, Conserved, LinkAuthentic, Matches, Phase, Interfered, TargetSeen, LinkSeen;
      var check := TargetIs(plan.candidate);
      if check == Yes {
        check := PeerIs(displaced);
      }
      if check == Yes {
        check := ReverseExchange(o);
      }
      if check != Yes {
        outcome := Retain(check);
        return;
      }
      disposition := Restored;
      outcome := Some(Restored);
    }

    // -------------------------------------------------------------- finalization

    method RemoveRecord() returns (check: Check)
      modifies `disk, `clock
      ensures Left(old(disk), old(clock))
      ensures (old(Calm()) ==> Calm()) && (FaultFree(env) ==> check != Stopped)
      ensures disk.peer == old(disk).peer && disk.removed == old(disk).removed
      ensures Conserved(old(disk)) ==> Conserved(disk)
      ensures disk.record == old(disk).record || disk.record.None?
      ensures check == Yes ==> disk.record.None?
      ensures old(Calm()) ==> disk == old(disk).(record := disk.record)
      ensures old(Calm()) && FaultFree(env) ==> check == Yes
    {
      hide QuietFrom, TargetSeen, LinkSeen;
      var turn := Tick();
      Interfering(old(disk), turn);
      if Applies(turn) {
        disk := disk.(record := None);
      }
      check := if CheckOf(turn) == Yes && !Applies(turn) then No else CheckOf(turn);
    }

    /** Removes the candidate evidence, the journal and the private directory. */
    method RemoveArtifacts() returns (check: Check)
      modifies `disk, `clock
      ensures Left(old(disk), old(clock))
      ensures (old(Calm()) ==> Calm()) && (FaultFree(env) ==> check != Stopped)
      ensures disk.peer == old(disk).peer && disk.removed == old(disk).removed
      ensures Conserved(old(disk)) ==> Conserved(disk)
      ensures disk.record == old(disk).record || disk.record.None?
      ensures check == Yes ==> disk.record.None?
      ensures old(Calm()) ==> disk == old(disk).(record := disk.record)
      ensures old(Calm()) && FaultFree(env) && old(Synced()) ==> check == Yes
    {
      SeenComposes(env);
      hide TargetSeen, LinkSeen, QuietFrom, FaultFree, Conserved, Interfered;
      check := Observe();
      if check == Yes {
        check := Observe();
      }
      if check == Yes && !Synced() {
        check := No;
      }
      if check == Yes {
        check := RemoveRecord();
      }
      if check == Yes {
        check := Observe();
      }
    }

    /** The entry the peer must be to be removed. */
    function ExpectedPeer(): Entry
      reads `disposition, `journal
    {
      if disposition == Installed && plan.snapshot.Snapshot? && journal.displaced.Some? then journal.displaced.value
      else plan.candidate
    }

    /** Removes the peer if it is what this transaction may remove. */
    method RemoveExpectedPeer() returns (check: Check)
      modifies `disk, `clock
      ensures Left(old(disk), old(clock))
      ensures (old(Calm()) ==> Calm()) && (FaultFree(env) ==> check != Stopped)
      ensures Conserved(old(disk)) ==> Conserved(disk)
      ensures disk.record == old(disk).record
      ensures disk.removed == old(disk).removed || disk.removed == old(disk).removed + multiset{ExpectedPeer()}
      ensures check == Yes ==> disk.peer.None? && disk.removed == old(disk).removed + Held(old(disk).peer)
      ensures old(Calm()) ==> disk.target == old(disk).target
      ensures old(Calm()) && FaultFree(env) && (old(disk).peer.None? || old(disk).peer == Some(ExpectedPeer())) ==>
                check == Yes
    {
      SeenComposes(env);
      hide TargetSeen, LinkSeen, QuietFrom, FaultFree, Conserved, Interfered;
      check := Observe();
      if check != Yes || disk.peer.None? {
        return;
      }
      check := PeerIs(ExpectedPeer());
      if check == Yes {
        check := RemovePeer();
      }
    }

    method GiveUp(check: Check) returns (end: End)
      modifies `disposition, `closed
      ensures end == if check == Stopped then Interrupted else NeedsRecovery
      ensures end == NeedsRecovery ==> disposition == RecoveryRequired && closed
    {
      if check == Stopped {
        return Interrupted;
      }
      disposition := RecoveryRequired;
      closed := true;
      end := NeedsRecovery;
    }

    /**
     * Records the end of the transaction and removes what it left, the peer included. The only
     * entry ever removed is the candidate, or the exact original an installed candidate replaced.
     */
    method Finalize() returns (end: End)
      requires disposition == Installed && journal.displaced.Some? ==> Matches(journal.displaced.value, plan.snapshot)
      modifies `disk, `clock, `journal, `generation, `disposition, `closed
      ensures Left(old(disk), old(clock))
      ensures (old(Calm()) ==> Calm()) && (FaultFree(env) ==> end != Interrupted)
      ensures Conserved(old(disk)) ==> Conserved(disk)
      ensures Authorized(plan, old(disk).removed, disk.removed, old(disposition) == Installed)
      ensures end == Closed && !old(closed) ==>
                && Cleared(disk) && disposition == Unchanged && Over(disk)
                && disk.removed == old(disk).removed + Held(old(disk).peer)
      ensures old(Calm()) ==> disk.target == old(disk).target && (disk == old(disk) || Over(disk))
      ensures old(Calm()) && FaultFree(env) && !old(closed) && old(disposition) != RecoveryRequired && old(Synced()) &&
              old(LinkAuthentic(plan, disk, journal)) &&
              old(ValidTransition(journal, Journal(Finalized, journal.displaced))) &&
              old(generation) < MAX_GENERATION &&
              (old(disk).peer.None? || old(disk).peer == Some(old(ExpectedPeer()))) ==>
                end == Closed
    {
      SeenComposes(env);
      hide TargetSeen, LinkSeen, QuietFrom, FaultFree, Conserved, LinkAuthentic, Matches, Interfered, ValidTransition;
      if closed {
        return Closed;
      }
      if disposition == RecoveryRequired {
        end := GiveUp(No);
        return;
      }
      ghost var fine := Calm() && FaultFree(env) && Synced() && LinkAuthentic(plan, disk, journal) &&
                        ValidTransition(journal, Journal(Finalized, journal.displaced)) && generation < MAX_GENERATION;
      var check := Authenticate();
      assert fine ==> check == Yes && Synced() && LinkAuthentic(plan, disk, journal);
      if check == Yes {
        check := WriteJournalTransition(Finalized, journal.displaced);
      }
      assert fine ==> check == Yes;
      if check != Yes {
        end := GiveUp(check);
        return;
      }
      end := RemoveEverything();
    }

    method RemoveEverything() returns (end: End)
      requires journal.state == Finalized && Synced()
      requires disposition == Installed && journal.displaced.Some? ==> Matches(journal.displaced.value, plan.snapshot)
      modifies `disk, `clock, `disposition, `closed
      ensures Left(old(disk), old(clock))
      ensures (old(Calm()) ==> Calm()) && (FaultFree(env) ==> end != Interrupted)
      ensures Conserved(old(disk)) ==> Conserved(disk)
      ensures Authorized(plan, old(disk).removed, disk.removed, old(disposition) == Installed)
      ensures end == Closed ==>
                Cleared(disk) && disposition == Unchanged && disk.removed == old(disk).removed + Held(old(disk).peer)
      ensures old(Calm()) ==> disk.target == old(disk).target
      ensures Over(disk)
      ensures old(Calm()) && FaultFree(env) && (old(disk).peer.None? || old(disk).peer == Some(old(ExpectedPeer()))) ==>
                end == Closed
    {
      SeenComposes(env);
      hide TargetSeen, LinkSeen, QuietFrom, FaultFree, Conserved, Matches, Interfered;
      var check := RemoveExpectedPeer();
      if check == Yes {
        check := RemoveArtifacts();
      }
      if check != Yes {
        end := GiveUp(check);
        return;
      }
      disposition := Unchanged;
      closed := true;
      end := Closed;
    }

    // -------------------------------------------------------------- rollback

    method Surrender(check: Check) returns (end: End)
      modifies `disposition
      ensures end == if check == Stopped then Interrupted else NeedsRecovery
    {
      if check == Stopped {
        return Interrupted;
      }
      disposition := RecoveryRequired;
      end := NeedsRecovery;
    }

    /** Undoes an install, or finishes one that never happened. Never removes the original. */
    method Rollback(ghost o: Entry) returns (end: End)
      modifies `disk, `clock, `journal, `generation, `disposition, `closed
      ensures (old(Calm()) ==> Calm()) && (FaultFree(env) ==> end != Interrupted) && old(clock) <= clock
      ensures old(disposition) == Installed || Left(old(disk), old(clock))
      ensures Conserved(old(disk)) ==> Conserved(disk)
      ensures Authorized(plan, old(disk).removed, disk.removed, false)
      ensures end == Closed ==> Over(disk) && Cleared(disk)
      ensures old(Calm()) && Phase(plan, old(disk), o) &&
              (old(disposition) == Unchanged || old(disposition) == Restored ==>
                  old(disk).peer == Some(plan.candidate)) ==>
                Phase(plan, disk, o) || Settled(disk, o)
      ensures old(Calm()) && FaultFree(env) && !old(closed) && old(disposition) == Installed && old(generation) < 5 &&
              Phase(plan, old(disk), o) && old(Synced()) && old(disk).target == Some(plan.candidate) &&
              (old(journal).state == Exchanged || old(journal).state == ParentSynced) ==>
                end == Closed && disk.target == Some(o)
      ensures old(InPlace()) && CutsRollback(env, old(clock)) && !old(closed) && old(disposition) == Installed ==>
                end == Interrupted && disk == Swapped(old(disk))
      ensures old(disposition) == Installed && !old(closed) && plan.snapshot.Absent? ==>
                end == NeedsRecovery && disk == old(disk)
    {
      SeenComposes(env);
      if closed || disposition == RecoveryRequired {
        return NeedsRecovery;
      }
      if disposition == Unchanged || disposition == Restored {
        if Phase(plan, disk, o) {
          PhaseFacts(plan, disk, o);
          PeerIsCandidate(plan, disk, o);
        }
        hide CutsRollback, QuietFrom, FaultFree, Conserved, LinkAuthentic, Matches, Interfered, ValidTransition, Phase;
        end := Finalize();
        return;
      }
      hide CutsRollback, QuietFrom, FaultFree, Conserved, LinkAuthentic, Matches, Interfered, ValidTransition, Phase;
      end := RollbackInstalled(o);
    }

    method RollbackInstalled(ghost o: Entry) returns (end: End)
      requires disposition == Installed && !closed
      modifies `disk, `clock, `journal, `generation, `disposition, `closed
      ensures (old(Calm()) ==> Calm()) && (FaultFree(env) ==> end != Interrupted) && old(clock) <= clock
      ensures Conserved(old(disk)) ==> Conserved(disk)
      ensures end == Closed ==> Over(disk) && Cleared(disk)
      ensures Authorized(plan, old(disk).removed, disk.removed, false)
      ensures old(Calm()) && Phase(plan, old(disk), o) ==> Phase(plan, disk, o) || Settled(disk, o)
      ensures old(Calm()) && FaultFree(env) && Phase(plan, old(disk), o) && old(Synced()) && old(generation) < 5 &&
              old(disk).target == Some(plan.candidate) &&
              (old(journal).state == Exchanged || old(journal).state == ParentSynced) ==>
                end == Closed && disk.target == Some(o)
      ensures old(InPlace()) && CutsRollback(env, old(clock)) ==>
                end == Interrupted && disk == Swapped(old(disk))
      ensures plan.snapshot.Absent? ==> end == NeedsRecovery && disk == old(disk)
    {
      ghost var calm := Calm();
      InstalledFacts(plan, disk, o);
      assert CutsRollback(env, clock) ==> CrashesAfter(env(clock + 4));
      assert InPlace() ==> disk.target.Some? && plan.snapshot.Snapshot?;
      hide Authorized, Over, Settled, CurrentTopology, CutsRollback, CrashesAfter, QuietFrom, FaultFree, Conserved,
           LinkAuthentic, Matches, Interfered, ValidTransition, Phase, InPlace;
      if plan.snapshot.Absent? {
        end := Surrender(No);
        return;
      }
      var check := MayReverse();
      if check != Yes {
        end := Surrender(check);
        return;
      }
      end := RollbackExchanged(calm, o);
    }

    /** The checks before an install is exchanged back. */
    method MayReverse() returns (check: Check)
      modifies `disk, `clock
      ensures (old(Calm()) ==> Calm()) && (FaultFree(env) ==> check != Stopped) && old(clock) <= clock
      ensures Watched(old(disk), disk) && (old(Calm()) ==> disk == old(disk))
      ensures check == Yes ==> journal.displaced.Some? && disk.peer == journal.displaced && Synced()
      ensures old(Calm()) && check == Yes ==> disk.target == Some(plan.candidate)
      ensures old(Calm()) && FaultFree(env) && Synced() && LinkAuthentic(plan, disk, journal) &&
              disk.target == Some(plan.candidate) && journal.displaced.Some? && disk.peer == journal.displaced ==>
                check == Yes
      ensures old(InPlace()) && CutsRollback(env, old(clock)) ==>
                check == Yes && clock == old(clock) + 4 && disk == old(disk)
    {
      hide Fine, CrashesAfter, QuietFrom, FaultFree, Conserved, LinkAuthentic, Interfered;
      check := Authenticate();
      if check == Yes {
        check := TargetIs(plan.candidate);
      }
      if check == Yes && journal.displaced.None? {
        check := No;
      }
      if check == Yes {
        check := PeerIs(journal.displaced.value);
      }
    }

    method RollbackExchanged(ghost calm: bool, ghost o: Entry) returns (end: End)
      requires disposition == Installed && !closed && plan.snapshot.Snapshot? && Synced()
      requires calm ==> Calm() && disk.target == Some(plan.candidate)
      requires journal.displaced.Some? && disk.peer == journal.displaced
      modifies `disk, `clock, `journal, `generation, `disposition, `closed
      ensures (calm ==> Calm()) && (FaultFree(env) ==> end != Interrupted) && old(clock) <= clock
      ensures Conserved(old(disk)) ==> Conserved(disk)
      ensures end == Closed ==> Over(disk) && Cleared(disk)
      ensures Authorized(plan, old(disk).removed, disk.removed, false)
      ensures calm && Phase(plan, old(disk), o) ==> Phase(plan, disk, o) || Settled(disk, o)
      ensures calm && FaultFree(env) && Phase(plan, old(disk), o) && old(generation) < 5 &&
              (old(journal).state == Exchanged || old(journal).state == ParentSynced) ==>
                end == Closed && disk.target == Some(o)
      ensures CrashesAfter(env(old(clock))) && old(disk).target.Some? ==>
                end == Interrupted && disk == Swapped(old(disk))
    {
      ExchangeFacts(plan, disk, o);
      hide CrashesAfter, QuietFrom, FaultFree, Conserved, LinkAuthentic, Matches, Interfered, ValidTransition, Phase,
           Over, Settled;
      var check := ReverseExchange(o);
      if check != Yes {
        end := Surrender(check);
        return;
      }
      end := FinishRestored(o);
    }

    /** Finalizes after the occupant was exchanged back. */
    method FinishRestored(ghost o: Entry) returns (end: End)
      requires !closed && journal.state == Reversed && journal.displaced.Some? && Synced()
      modifies `disk, `clock, `journal, `generation, `disposition, `closed
      ensures (old(Calm()) ==> Calm()) && (FaultFree(env) ==> end != Interrupted) && old(clock) <= clock
      ensures Conserved(old(disk)) ==> Conserved(disk)
      ensures end == Closed ==> Over(disk) && Cleared(disk)
      ensures Authorized(plan, old(disk).removed, disk.removed, false)
      ensures old(Calm()) ==> disk.target == old(disk).target
      ensures old(Calm()) && Phase(plan, old(disk), o) ==> Phase(plan, disk, o) || Settled(disk, o)
      ensures old(Calm()) && FaultFree(env) && Phase(plan, old(disk), o) ==> end == Closed
    {
      FinalizeValid(plan, disk, journal);
      ReversedFacts(plan, disk, o);
      hide QuietFrom, FaultFree, Conserved, LinkAuthentic, Matches, Interfered, ValidTransition, Phase, Over, Settled;
      disposition := Restored;
      end := Finalize();
      FinishedIsSettled(plan, old(disk), disk, o);
    }

    // -------------------------------------------------------------- recovery

    /**
     * Recovers an interrupted transaction from its journal and its cells alone. Without
     * interference the occupant ends in the target, or nothing is touched any more.
     */
    method Recover(ghost o: Entry) returns (outcome: Outcome)
      requires !closed
      modifies `disk, `clock, `journal, `generation, `disposition, `closed
      ensures (old(Calm()) ==> Calm()) && (FaultFree(env) ==> outcome.Some?) && old(clock) <= clock
      ensures plan.snapshot.Snapshot? && outcome.Some? ==>
                outcome == Some(Restored) || outcome == Some(RecoveryRequired)
      ensures outcome == Some(Restored) || outcome == Some(Unchanged) ==> Cleared(disk)
      ensures Conserved(old(disk)) ==> Conserved(disk)
      ensures Authorized(plan, old(disk).removed, disk.removed, false)
      ensures old(Calm()) && Phase(plan, old(disk), o) ==> Phase(plan, disk, o) || Settled(disk, o)
      ensures old(Calm()) && old(disk).target != Some(plan.candidate) ==> disk.target == old(disk).target
      ensures old(Calm()) && FaultFree(env) && Phase(plan, old(disk), o) && o != plan.candidate ==>
                disk.target == Some(o) &&
                outcome == Some(if Stuck(plan, old(disk), o) then RecoveryRequired else Restored) &&
                (Stuck(plan, old(disk), o) ==> disk == old(disk))
      ensures old(Calm()) && FaultFree(env) && old(disk).record.Some? &&
              !LinkAuthentic(plan, old(disk), old(disk).record.value.journal) ==>
                disk == old(disk) && outcome == Some(RecoveryRequired)
      ensures old(Calm()) && FaultFree(env) && plan.snapshot.Absent? && old(disk).target.Some? ==>
                disk == old(disk) && outcome == Some(RecoveryRequired)
      ensures old(Calm()) && FaultFree(env) && Vacant(plan, old(disk)) ==>
                outcome == Some(Unchanged) && disk.removed == old(disk).removed + multiset{plan.candidate}
    {
      VacantFacts(plan, disk);
      RecoveryCases(plan, disk, o);
      StuckHolds(plan, disk, o);
      hide QuietFrom, FaultFree, Conserved, LinkAuthentic, Matches, Interfered, ValidTransition, Phase, Stuck;
      var check := Load();
      if check != Yes {
        outcome := Retain(check);
        return;
      }
      disposition := Unchanged;
      outcome := RecoverAuthenticated(o);
    }

    method RecoverAuthenticated(ghost o: Entry) returns (outcome: Outcome)
      requires !closed && disposition == Unchanged && Synced()
      modifies `disk, `clock, `journal, `generation, `disposition, `closed
      ensures (old(Calm()) ==> Calm()) && (FaultFree(env) ==> outcome.Some?) && old(clock) <= clock
      ensures plan.snapshot.Snapshot? && outcome.Some? ==>
                outcome == Some(Restored) || outcome == Some(RecoveryRequired)
      ensures outcome == Some(Restored) || outcome == Some(Unchanged) ==> Cleared(disk)
      ensures Conserved(old(disk)) ==> Conserved(disk)
      ensures Authorized(plan, old(disk).removed, disk.removed, false)
      ensures old(Calm()) && Phase(plan, old(disk), o) ==> Phase(plan, disk, o) || Settled(disk, o)
      ensures old(Calm()) && old(disk).target != Some(plan.candidate) ==> disk.target == old(disk).target
      ensures old(Calm()) && FaultFree(env) && Phase(plan, old(disk), o) && o != plan.candidate ==>
                disk.target == Some(o) &&
                outcome == Some(if Stuck(plan, old(disk), o) then RecoveryRequired else Restored) &&
                (Stuck(plan, old(disk), o) ==> disk == old(disk))
      ensures old(Calm()) && FaultFree(env) && old(disk).record.Some? &&
              !LinkAuthentic(plan, old(disk), old(journal)) ==>
                disk == old(disk) && outcome == Some(RecoveryRequired)
      ensures old(Calm()) && FaultFree(env) && plan.snapshot.Absent? && old(disk).target.Some? ==>
                disk == old(disk) && outcome == Some(RecoveryRequired)
      ensures old(Calm()) && FaultFree(env) && Vacant(plan, old(disk)) ==>
                outcome == Some(Unchanged) && disk.removed == old(disk).removed + multiset{plan.candidate}
    {
      VacantFacts(plan, disk);
      ghost var calm := Calm();
      RecoveryCases(plan, disk, o);
      StuckHolds(plan, disk, o);
      hide QuietFrom, FaultFree, Conserved, LinkAuthentic, Matches, Interfered, ValidTransition, Phase, Stuck;
      var check := Authenticate();
      if check != Yes {
        outcome := Retain(check);
        return;
      }
      outcome := RecoverLoaded(calm, o);
    }

    /** Takes the journal from the disk. */
    method Load() returns (check: Check)
      modifies `disk, `clock, `journal, `generation
      ensures (old(Calm()) ==> Calm()) && (FaultFree(env) ==> check != Stopped) && old(clock) <= clock
      ensures Watched(old(disk), disk) && (old(Calm()) ==> disk == old(disk))
      ensures check == Yes ==> Synced()
      ensures FaultFree(env) && disk.record.Some? ==> check == Yes
    {
      check := Observe();
      if check == Yes {
        if disk.record.None? {
          return No;
        }
        journal := disk.record.value.journal;
        generation := disk.record.value.generation;
      }
    }

    method RecoverLoaded(ghost calm: bool, ghost o: Entry) returns (outcome: Outcome)
      requires !closed && disposition == Unchanged && Synced()
      requires calm ==> Calm() && LinkAuthentic(plan, disk, journal)
      modifies `disk, `clock, `journal, `generation, `disposition, `closed
      ensures (calm ==> Calm()) && (FaultFree(env) ==> outcome.Some?) && old(clock) <= clock
      ensures plan.snapshot.Snapshot? && outcome.Some? ==>
                outcome == Some(Restored) || outcome == Some(RecoveryRequired)
      ensures outcome == Some(Restored) || outcome == Some(Unchanged) ==> Cleared(disk)
      ensures Conserved(old(disk)) ==> Conserved(disk)
      ensures Authorized(plan, old(disk).removed, disk.removed, false)
      ensures calm && Phase(plan, old(disk), o) ==> Phase(plan, disk, o) || Settled(disk, o)
      ensures calm && old(disk).target != Some(plan.candidate) ==> disk.target == old(disk).target
      ensures calm && FaultFree(env) && Phase(plan, old(disk), o) && o != plan.candidate ==>
                disk.target == Some(o) &&
                outcome == Some(if Stuck(plan, old(disk), o) then RecoveryRequired else Restored) &&
                (Stuck(plan, old(disk), o) ==> disk == old(disk))
      ensures calm && FaultFree(env) && plan.snapshot.Absent? && old(disk).target.Some? ==>
                disk == old(disk) && outcome == Some(RecoveryRequired)
      ensures calm && FaultFree(env) && Vacant(plan, old(disk)) ==>
                outcome == Some(Unchanged) && disk.removed == old(disk).removed + multiset{plan.candidate}
    {
      VacantFacts(plan, disk);
      ghost var start := disk;
      PeerIsCandidate(plan, disk, o);
      RecoveryCases(plan, disk, o);
      OriginalCases(plan, disk, o);
      hide QuietFrom, FaultFree, Conserved, LinkAuthentic, Matches, Interfered, ValidTransition, Phase;
      var survey := Survey();
      if survey.None? {
        return None;
      }
      var Found(targetCandidate, peerCandidate, targetOriginal, targetDisplaced, peer) := survey.value;
      if plan.snapshot.Absent? {
        if targetOriginal && peerCandidate {
          outcome := Conclude(Unchanged);
        } else {
          outcome := Retain(No);
        }
      } else if journal.displaced.Some? && targetDisplaced && peerCandidate {
        outcome := RecoverReversed(calm, o);
      } else if targetOriginal && peerCandidate {
        outcome := Conclude(Restored);
      } else if !targetCandidate || peer.None? {
        outcome := Retain(No);
      } else {
        outcome := RecoverInstalled(calm, o, peer.value);
      }
    }

    /** Reads every fact the recovery matrix needs; none when the process crashed meanwhile. */
    method Survey() returns (found: Option<Found>)
      modifies `disk, `clock
      ensures (old(Calm()) ==> Calm()) && (FaultFree(env) ==> found.Some?) && old(clock) <= clock
      ensures Watched(old(disk), disk) && (old(Calm()) ==> disk == old(disk))
      ensures found.Some? && found.value.peer.Some? ==> found.value.peer == disk.peer
      ensures found.Some? && found.value.peerCandidate ==> disk.peer == Some(plan.candidate)
      ensures old(Calm()) && found.Some? ==> Sound(plan, disk, journal, found.value)
      ensures old(Calm()) && FaultFree(env) ==> found == Some(Facts(plan, disk, journal))
    {
      hide QuietFrom, FaultFree, Conserved, Interfered, Matches, TargetSeen, LinkSeen;
      var targetCandidate := TargetIs(plan.candidate);
      var peerCandidate := PeerIs(plan.candidate);
      var targetOriginal := ExpectedTargetStillCurrent();
      var peerRead := Observe();
      var peer := if peerRead == Yes then disk.peer else None;
      var targetDisplaced := No;
      if journal.displaced.Some? {
        targetDisplaced := TargetIs(journal.displaced.value);
      }
      if targetCandidate == Stopped || peerCandidate == Stopped || targetOriginal == Stopped || peerRead == Stopped ||
         targetDisplaced == Stopped {
        return None;
      }
      found := Some(Found(targetCandidate == Yes, peerCandidate == Yes, targetOriginal == Yes,
                          targetDisplaced == Yes, peer));
    }

    /** Finalizes under a disposition that never removes anything but the candidate. */
    method Conclude(final: Disposition) returns (outcome: Outcome)
      requires !closed && (final == Unchanged || final == Restored)
      modifies `disk, `clock, `journal, `generation, `disposition, `closed
      ensures (old(Calm()) ==> Calm()) && (FaultFree(env) ==> outcome.Some?) && old(clock) <= clock
      ensures outcome.Some? ==> outcome == Some(final) || outcome == Some(RecoveryRequired)
      ensures outcome == Some(Restored) || outcome == Some(Unchanged) ==> Cleared(disk)
      ensures Conserved(old(disk)) ==> Conserved(disk)
      ensures Authorized(plan, old(disk).removed, disk.removed, false)
      ensures old(Calm()) ==> disk.target == old(disk).target && (disk == old(disk) || Over(disk))
      ensures old(Calm()) && FaultFree(env) && old(Synced()) && LinkAuthentic(plan, old(disk), old(journal)) &&
              ValidTransition(old(journal), Journal(Finalized, old(journal).displaced)) &&
              old(generation) < MAX_GENERATION &&
              old(disk).peer == Some(plan.candidate) ==>
                outcome == Some(final)
      ensures outcome == Some(final) ==> disk.removed == old(disk).removed + Held(old(disk).peer)
    {
      hide QuietFrom, FaultFree, Conserved, LinkAuthentic, Matches, Interfered, ValidTransition;
      disposition := final;
      var end := Finalize();
      if end == Interrupted {
        return None;
      }
      if end == NeedsRecovery {
        outcome := Retain(No);
        return;
      }
      outcome := Some(final);
    }

    /** The occupant is back in the target: records that if need be, and finishes. */
    method RecoverReversed(ghost calm: bool, ghost o: Entry) returns (outcome: Outcome)
      requires !closed && Synced() && journal.displaced.Some? && disk.peer == Some(plan.candidate)
      requires calm ==> Calm() && disk.target == journal.displaced
      modifies `disk, `clock, `journal, `generation, `disposition, `closed
      ensures (calm ==> Calm()) && (FaultFree(env) ==> outcome.Some?) && old(clock) <= clock
      ensures outcome.Some? ==> outcome == Some(Restored) || outcome == Some(RecoveryRequired)
      ensures outcome == Some(Restored) || outcome == Some(Unchanged) ==> Cleared(disk)
      ensures Conserved(old(disk)) ==> Conserved(disk)
      ensures Authorized(plan, old(disk).removed, disk.removed, false)
      ensures calm && Phase(plan, old(disk), o) ==> Phase(plan, disk, o) || Settled(disk, o)
      ensures calm ==> disk.target == old(disk).target
      ensures calm && FaultFree(env) && Phase(plan, old(disk), o) ==>
                disk.target == Some(o) &&
                outcome == Some(if old(journal).state == ParentSynced then RecoveryRequired else Restored) &&
                (old(journal).state == ParentSynced ==> disk == old(disk))
    {
      PeerIsCandidate(plan, disk, o);
      BackCases(plan, disk, o);
      ghost var next, record := Journal(Reversed, journal.displaced), Record(generation, journal);
      hide QuietFrom, FaultFree, Conserved, LinkAuthentic, Matches, Interfered, ValidTransition, Phase, TargetSeen,
           LinkSeen;
      var check := Yes;
      if journal.state == Exchanged {
        ghost var before := disk;
        check := WriteJournalTransition(Reversed, journal.displaced);
        JournalKeepsPhase(plan, before, disk, o, record, next);
      } else if journal.state != Reversed {
        check := No;
      }
      if check == Yes {
        check := Observe();
      }
      if check != Yes {
        outcome := Retain(check);
        return;
      }
      FinalizeValid(plan, disk, journal);
      outcome := Conclude(Restored);
    }

    /** The candidate is in the target: exchanges it back for what it displaced. */
    method RecoverInstalled(ghost calm: bool, ghost o: Entry, peer: Entry) returns (outcome: Outcome)
      requires !closed && Synced() && plan.snapshot.Snapshot? && disk.peer == Some(peer)
      requires calm ==> Calm() && disk.target == Some(plan.candidate)
      modifies `disk, `clock, `journal, `generation, `disposition, `closed
      ensures (calm ==> Calm()) && (FaultFree(env) ==> outcome.Some?) && old(clock) <= clock
      ensures plan.snapshot.Snapshot? && outcome.Some? ==>
                outcome == Some(Restored) || outcome == Some(RecoveryRequired)
      ensures outcome == Some(Restored) || outcome == Some(Unchanged) ==> Cleared(disk)
      ensures Conserved(old(disk)) ==> Conserved(disk)
      ensures Authorized(plan, old(disk).removed, disk.removed, false)
      ensures calm && Phase(plan, old(disk), o) ==> Phase(plan, disk, o) || Settled(disk, o)
      ensures calm && FaultFree(env) && Phase(plan, old(disk), o) && o != plan.candidate ==>
                disk.target == Some(o) && outcome == Some(Restored)
    {
      RecoveryCases(plan, disk, o);
      InstalledCases(plan, disk, o);
      ghost var next, record := Journal(Exchanged, Some(peer)), Record(generation, journal);
      hide QuietFrom, FaultFree, Conserved, LinkAuthentic, Matches, Interfered, ValidTransition, Phase, TargetSeen,
           LinkSeen;
      if journal.displaced.Some? {
        if journal.displaced.value != peer {
          outcome := Retain(No);
          return;
        }
      } else {
        ghost var before := disk;
        var check := WriteJournalTransition(Exchanged, Some(peer));
        JournalKeepsPhase(plan, before, disk, o, record, next);
        if check != Yes {
          outcome := Retain(check);
          return;
        }
      }
      disposition := Installed;
      var end := Rollback(o);
      if end == Interrupted {
        return None;
      }
      if end == NeedsRecovery {
        outcome := Retain(No);
        return;
      }
      outcome := Some(Restored);
    }
  }

  // ---------------------------------------------------------------- whole runs

  /** What a stray entry can count on: it is never removed, so it is in a cell or was overwritten by others. */
  ghost predicate Survives(d: Disk, e: Entry) {
    d.removed[e] == 0 && d.placed[e] == Held(d.target)[e] + Held(d.peer)[e] + d.clobbered[e]
  }

  lemma ForeignSurvives(plan: Plan, d: Disk, d': Disk, installed: bool, e: Entry)
    requires Conserved(d') && Authorized(plan, d.removed, d'.removed, installed) && d.removed[e] == 0
    requires e != plan.candidate && !Matches(e, plan.snapshot)
    ensures Survives(d', e)
  {
  }

  lemma ForeignStays(d: Disk, d': Disk, e: Entry)
    requires Conserved(d') && d'.removed == d.removed && d.removed[e] == 0
    ensures Survives(d', e)
  {
  }

  /**
   * Whatever others do to the target between any two steps, and wherever the runs fail or crash,
   * promotion followed by finalization or rollback, and then by any number of recoveries, never
   * removes an entry other than the candidate or one that matches the captured original.
   */
  method UnderInterference(plan: Plan, env: Environment, recoveries: seq<Environment>, disk: Disk, undo: bool,
                           ghost e: Entry)
    returns (final: Disk)
    requires Conserved(disk) && disk.removed[e] == 0
    requires e != plan.candidate && !Matches(e, plan.snapshot)
    ensures Conserved(final) && Survives(final, e)
  {
    final := FirstInterfered(plan, env, disk, undo, e);
    hide *;
    for i := 0 to |recoveries|
      invariant Conserved(final) && Survives(final, e)
    {
      final := RecoverInterfered(plan, recoveries[i], final, e);
    }
  }

  method FirstInterfered(plan: Plan, env: Environment, disk: Disk, undo: bool, ghost e: Entry) returns (final: Disk)
    requires Conserved(disk) && disk.removed[e] == 0
    requires e != plan.candidate && !Matches(e, plan.snapshot)
    ensures Conserved(final) && Survives(final, e)
  {
    hide Conserved, Survives, Authorized, Matches, Phase;
    var t := new Transaction(plan, env, disk);
    var promoted := t.Promote();
    ForeignStays(disk, t.disk, e);
    if promoted.None? {
      return t.disk;
    }
    ghost var before, installed := t.disk, t.disposition == Installed;
    if undo {
      var _ := t.Rollback(e);
      ForeignSurvives(plan, before, t.disk, false, e);
    } else {
      var _ := t.Finalize();
      ForeignSurvives(plan, before, t.disk, installed, e);
    }
    final := t.disk;
  }

  method RecoverInterfered(plan: Plan, env: Environment, disk: Disk, ghost e: Entry) returns (final: Disk)
    requires Conserved(disk) && Survives(disk, e)
    requires e != plan.candidate && !Matches(e, plan.snapshot)
    ensures Conserved(final) && Survives(final, e)
  {
    assert disk.removed[e] == 0;
    hide Conserved, Survives, Authorized, Matches, Phase;
    var t := new Transaction(plan, env, disk);
    var _ := t.Recover(e);
    ForeignSurvives(plan, disk, t.disk, false, e);
    final := t.disk;
  }

  /**
   * An entry that others put in place of the original in the very turn of the exchange is put
   * back, and the install reports that it restored it.
   */
  method LateSubstitution(plan: Plan, env: Environment, disk: Disk, ghost substitute: Entry)
    returns (final: Disk, outcome: Outcome)
    requires Ready(plan, disk) && Original(plan, disk) && LinkHeld(plan, disk.link) && FaultFree(env)
    requires QuietUntil(env, 0, EXCHANGE_TURNS - 1) && LateAt(env, EXCHANGE_TURNS - 1)
    requires env(EXCHANGE_TURNS - 1).replace == Some(Some(substitute)) && !Matches(substitute, plan.snapshot)
    ensures outcome == Some(Restored) && final.target == Some(substitute) && final.peer == Some(plan.candidate)
  {
    SeenLast(disk.target, env, EXCHANGE_TURNS - 1, substitute);
    hide QuietFrom, QuietUntil, LateAt, FaultFree, Phase, Matches, Conserved, LinkAuthentic, TargetSeen, LinkSeen;
    var t := new Transaction(plan, env, disk);
    outcome := t.Promote();
    final := t.disk;
  }

  lemma SeenLast(target: Option<Entry>, env: Environment, k: nat, e: Entry)
    requires env(k).replace == Some(Some(e))
    ensures TargetSeen(target, env, 0, k + 1) == Some(e)
  {
  }

  /** How an install ended that did not simply succeed: by its own rollback, or by what a recovery reports. */
  datatype Ending = RolledBack | Recovered(outcome: Outcome)

  /**
   * However an install crashes or fails, in promotion or rollback and then in any number of
   * recoveries, a last recovery leaves in the target what others had last put there: the entry
   * that the exchange displaced, be it the original or a substitute. Others may act up to and
   * including the exchange, but leave the requested link as it was captured.
   */
  method CrashAnywhere(plan: Plan, first: Environment, retries: seq<Environment>, last: Environment, disk: Disk,
                       undo: bool)
    returns (final: Disk, ending: Ending, turns: nat)
    requires Ready(plan, disk) && QuietFrom(first, EXCHANGE_TURNS)
    requires (forall i | 0 <= i < |retries| :: QuietFrom(retries[i], 0)) && QuietFrom(last, 0) && FaultFree(last)
    ensures var o := TargetSeen(disk.target, first, 0, turns);
            o.Some? && o.value != plan.candidate && LinkHeld(plan, LinkSeen(disk.link, first, 0, turns)) ==>
              final.target == o
    ensures (ending == RolledBack && undo) || ending == Recovered(Some(Restored)) ||
            ending == Recovered(Some(RecoveryRequired))
  {
    var crashed, over;
    crashed, over, turns := FirstRun(plan, first, disk, undo);
    if over {
      return crashed, RolledBack, turns;
    }
    ghost var o := TargetSeen(disk.target, first, 0, turns);
    ghost var kept := o.Some? && o.value != plan.candidate && LinkHeld(plan, LinkSeen(disk.link, first, 0, turns));
    hide *;
    final := crashed;
    var outcome: Outcome := None;
    for i := 0 to |retries|
      invariant kept ==> Recoverable(plan, final, o.value)
    {
      final, outcome := RecoverOnce(plan, retries[i], final, if kept then o.value else plan.candidate);
    }
    final, outcome := RecoverOnce(plan, last, final, if kept then o.value else plan.candidate);
    ending := Recovered(outcome);
  }

  /** Nothing is lost: the install over `o` is unfinished, or the target holds `o`. */
  predicate Recoverable(plan: Plan, d: Disk, o: Entry) { Phase(plan, d, o) || d.target == Some(o) }

  method FirstRun(plan: Plan, env: Environment, disk: Disk, undo: bool) returns (final: Disk, over: bool, turns: nat)
    requires Ready(plan, disk) && QuietFrom(env, EXCHANGE_TURNS)
    ensures var o := TargetSeen(disk.target, env, 0, turns);
            o.Some? && o.value != plan.candidate && LinkHeld(plan, LinkSeen(disk.link, env, 0, turns)) ==>
              Recoverable(plan, final, o.value) && (over ==> final.target == o)
    ensures over ==> undo
  {
    hide QuietFrom, FaultFree, Phase, Matches, Stuck, Conserved, Authorized, LinkAuthentic, TargetSeen, LinkSeen;
    var t := new Transaction(plan, env, disk);
    var promoted := t.Promote();
    if promoted.None? || !undo {
      return t.disk, false, t.clock;
    }
    ghost var before, at := t.disk, t.clock;
    ghost var o := TargetSeen(disk.target, env, 0, at);
    var end := t.Rollback(if o.Some? then o.value else plan.candidate);
    final, over, turns := t.disk, end == Closed, t.clock;
    SeenThrough(disk.target, disk.link, env, 0, at, turns);
    if at >= EXCHANGE_TURNS {
      QuietLater(env, EXCHANGE_TURNS, at);
      SeenStays(o, LinkSeen(disk.link, env, 0, at), env, at, turns);
      if o.Some? {
        OverIsSettled(plan, final, o.value);
        SettledOrPhase(plan, final, o.value);
      }
    }
  }

  method RecoverOnce(plan: Plan, env: Environment, disk: Disk, ghost o: Entry) returns (final: Disk, outcome: Outcome)
    requires plan.snapshot.Snapshot? && QuietFrom(env, 0)
    ensures o != plan.candidate && Recoverable(plan, disk, o) ==>
              Recoverable(plan, final, o) && (FaultFree(env) ==> final.target == Some(o))
    ensures FaultFree(env) ==> outcome == Some(Restored) || outcome == Some(RecoveryRequired)
  {
    hide QuietFrom, FaultFree, Phase, Matches, Stuck, Conserved, Authorized, LinkAuthentic;
    var t := new Transaction(plan, env, disk);
    outcome := t.Recover(o);
    SettledOrPhase(plan, t.disk, o);
    final := t.disk;
  }

  /**
   * Without faults and interference an install over a captured original puts the candidate in
   * the target, and finalizing it removes exactly the original and leaves nothing behind;
   * rolled back, it puts the original back and removes exactly the candidate.
   */
  method InstallSucceeds(plan: Plan, env: Environment, disk: Disk, undo: bool, ghost original: Entry)
    returns (final: Disk, outcome: Outcome, end: End)
    requires Ready(plan, disk) && disk.target == Some(original) && Matches(original, plan.snapshot)
    requires LinkHeld(plan, disk.link) && QuietFrom(env, 0) && FaultFree(env)
    ensures outcome == Some(Installed) && end == Closed && Cleared(final)
    ensures !undo ==> final.target == Some(plan.candidate) && final.removed == disk.removed + multiset{original}
    ensures undo ==> final.target == Some(original) && Authorized(plan, disk.removed, final.removed, false)
    ensures undo && Conserved(disk) ==> Conserved(final)
  {
    SeenStays(disk.target, disk.link, env, 0, EXCHANGE_TURNS);
    QuietParts(env);
    hide QuietFrom, QuietUntil, LateAt, FaultFree, Phase, Matches, Stuck, Conserved, Authorized, LinkAuthentic,
         TargetSeen, LinkSeen, LinkHeld, ValidTransition, Cleared;
    var t := new Transaction(plan, env, disk);
    outcome := t.Promote();
    SeenStays(disk.target, disk.link, env, 0, t.clock);
    InstalledRecord(plan, t.disk, original, t.journal, t.generation);
    if undo {
      end := t.Rollback(original);
    } else {
      end := t.Finalize();
    }
    final := t.disk;
  }

  lemma InstalledRecord(plan: Plan, d: Disk, o: Entry, journal: Journal, generation: nat)
    ensures Phase(plan, d, o) && d.target == Some(plan.candidate) && d.record == Some(Record(generation, journal)) &&
            journal.state == ParentSynced ==>
              && generation == 3 && journal.displaced == Some(o) && LinkAuthentic(plan, d, journal)
              && ValidTransition(journal, Journal(Finalized, journal.displaced))
  {
  }

  /**
   * Without faults and interference an install to an absent target moves the candidate there,
   * and finalizing it removes nothing. Rolled back, it changes nothing and asks for recovery.
   */
  method AbsentInstallSucceeds(plan: Plan, env: Environment, disk: Disk, undo: bool)
    returns (final: Disk, outcome: Outcome, end: End)
    requires Vacant(plan, disk) && QuietFrom(env, 0) && FaultFree(env)
    ensures outcome == Some(Installed) && final.target == Some(plan.candidate) && final.removed == disk.removed
    ensures !undo ==> end == Closed && Cleared(final)
    ensures undo ==>
              end == NeedsRecovery && final.peer.None? && final.record == Some(Record(3, Journal(ParentSynced, None)))
  {
    VacantFacts(plan, disk);
    hide QuietFrom, FaultFree, Conserved, Authorized, LinkAuthentic, ValidTransition, Vacant, Cleared;
    var t := new Transaction(plan, env, disk);
    outcome := t.Promote();
    assert t.disk == Swapped(disk).(record := t.disk.record);
    assert LinkAuthentic(plan, t.disk, Journal(ParentSynced, None)) && t.journal == Journal(ParentSynced, None);
    if undo {
      end := t.Rollback(plan.candidate);
    } else {
      end := t.Finalize();
    }
    final := t.disk;
  }

  /**
   * A recovery over an absent target ends a transaction that moved nothing, and leaves alone
   * one whose candidate is in the target.
   */
  method AbsentRecovery(plan: Plan, env: Environment, disk: Disk) returns (final: Disk, outcome: Outcome)
    requires plan.snapshot.Absent? && QuietFrom(env, 0) && FaultFree(env)
    ensures Vacant(plan, disk) ==>
              outcome == Some(Unchanged) && final.target.None? && Cleared(final) &&
              final.removed == disk.removed + multiset{plan.candidate}
    ensures disk.target.Some? ==> outcome == Some(RecoveryRequired) && final == disk
  {
    VacantFacts(plan, disk);
    hide QuietFrom, FaultFree, Phase, Matches, Stuck, Conserved, Authorized, LinkAuthentic, ValidTransition, Cleared,
         Vacant;
    var t := new Transaction(plan, env, disk);
    outcome := t.Recover(plan.candidate);
    final := t.disk;
  }

  /**
   * An install of a captured original whose rollback crashes right after it exchanged the cells:
   * the original is back, but the journal says that the install was complete, and recovery
   * leaves everything in place and asks for help.
   */
  method CrashedRollback(plan: Plan, first: Environment, cut: Environment, last: Environment, disk: Disk,
                         ghost original: Entry)
    returns (final: Disk, outcome: Outcome)
    requires Ready(plan, disk) && disk.target == Some(original) && Matches(original, plan.snapshot)
    requires LinkHeld(plan, disk.link) && original != plan.candidate
    requires QuietFrom(first, 0) && FaultFree(first) && CutsRollback(cut, 0) && QuietFrom(last, 0) && FaultFree(last)
    ensures final.target == Some(original) && outcome == Some(RecoveryRequired)
  {
    SeenStays(disk.target, disk.link, first, 0, EXCHANGE_TURNS);
    QuietParts(first);
    hide QuietFrom, QuietUntil, LateAt, FaultFree, Phase, Matches, Stuck, Conserved, Authorized, LinkAuthentic,
         CutsRollback, TargetSeen, LinkSeen, LinkHeld;
    var t := new Transaction(plan, first, disk);
    var promoted := t.Promote();
    SeenStays(disk.target, disk.link, first, 0, t.clock);
    InstalledInPlace(plan, t.disk, original, t.journal, t.generation);
    var u := new Transaction.Continued(t, cut);
    ghost var installed := u.disk;
    var end := u.Rollback(original);
    SwappedIsStuck(plan, installed, original, t.generation);
    var again := new Transaction(plan, last, u.disk);
    outcome := again.Recover(original);
    final := again.disk;
  }

  lemma QuietParts(env: Environment)
    requires QuietFrom(env, 0)
    ensures QuietFrom(env, EXCHANGE_TURNS) && QuietUntil(env, 0, EXCHANGE_TURNS - 1) && LateAt(env, EXCHANGE_TURNS - 1)
  {
    assert Undisturbed(env(EXCHANGE_TURNS - 1));
  }

  lemma InstalledInPlace(plan: Plan, d: Disk, o: Entry, journal: Journal, generation: nat)
    requires Phase(plan, d, o) && d.target == Some(plan.candidate) && d.record == Some(Record(generation, journal))
    ensures CurrentTopology(plan, d) == plan.requested
  {
  }

  lemma SwappedIsStuck(plan: Plan, d: Disk, o: Entry, generation: nat)
    requires Phase(plan, d, o) && d.target == Some(plan.candidate) && d.record.value.journal.state == ParentSynced
    ensures Phase(plan, Swapped(d), o) && Stuck(plan, Swapped(d), o)
  {
  }

  /**
   * The link condition is needed: when others have changed the requested link behind an install
   * that is in place, a recovery changes nothing and the candidate stays.
   */
  method RelinkedStays(plan: Plan, env: Environment, disk: Disk) returns (final: Disk, outcome: Outcome)
    requires plan.snapshot.Snapshot? && !plan.direct && disk.link != plan.requested
    requires disk.target == Some(plan.candidate) && disk.record.Some?
    requires match disk.record.value.journal.state
             case Prepared | ParentSynced => true
             case Exchanged => disk.record.value.journal.displaced != disk.target
             case _ => false
    requires QuietFrom(env, 0) && FaultFree(env)
    ensures final == disk && outcome == Some(RecoveryRequired)
  {
    hide QuietFrom, FaultFree, Phase, Matches, Stuck, Conserved, Authorized;
    var t := new Transaction(plan, env, disk);
    outcome := t.Recover(plan.candidate);
    final := t.disk;
  }

  lemma OverIsSettled(plan: Plan, d: Disk, o: Entry)
    ensures Over(d) && (Phase(plan, d, o) || Settled(d, o)) ==> d.target == Some(o)
  {
  }

  lemma SettledOrPhase(plan: Plan, d: Disk, o: Entry)
    ensures Settled(d, o) ==> d.target == Some(o)
  {
  }
}
