/**
 * The two-resource ingest commit (core/store/store.go): a Git reference updated through a
 * prepared session whose response may be lost, and a secret backend with compensation.
 *
 * Other processes may move the reference whenever no session of ours holds it. Every
 * backend call and session frame may fail, with or without its effect.
 */
module Ingest {
  import opened Wrappers

  datatype Secret = Secret(key: string, value: string)

  datatype Prior = Prior(key: string, value: Option<string>)

  type Backend = map<string, string>

  /** One turn of the environment: who else moves the reference, and how our step ends. */
  datatype Turn = Turn(moved: Option<Option<string>>, ok: bool, applied: bool)

  type Environment = nat -> Turn

  ghost predicate Undisturbed(env: Environment) { forall k :: env(k).moved.None? }

  // ---------------------------------------------------------------- backend maps

  function ValueOf(m: Backend, key: string): Option<string> { if key in m then Some(m[key]) else None }

  predicate DistinctKeys(pending: seq<Secret>) {
    forall i, j :: 0 <= i < j < |pending| ==> pending[i].key != pending[j].key
  }

  function KeysOf(pending: seq<Secret>): set<string> { set i | 0 <= i < |pending| :: pending[i].key }

  /** The two backends differ on the given keys at most. */
  ghost predicate AgreeOutside(m: Backend, m': Backend, keys: set<string>) {
    forall k :: k !in keys ==> ValueOf(m, k) == ValueOf(m', k)
  }

  /** Every pending secret is stored and nothing else changed. */
  ghost predicate Stored(before: Backend, after: Backend, pending: seq<Secret>) {
    && (forall i | 0 <= i < |pending| :: ValueOf(after, pending[i].key) == Some(pending[i].value))
    && AgreeOutside(before, after, KeysOf(pending))
  }

  ghost predicate Recalls(before: Backend, pending: seq<Secret>, priors: seq<Prior>) {
    |priors| == |pending| &&
    forall i | 0 <= i < |priors| :: priors[i] == Prior(pending[i].key, ValueOf(before, pending[i].key))
  }

  /** The given backend is the one before, once the first `n` priors are disregarded. */
  ghost predicate RestoredFrom(before: Backend, now: Backend, pending: seq<Secret>, n: nat)
    requires n <= |pending|
  {
    AgreeOutside(before, now, KeysOf(pending[..n]))
  }

  lemma AgreeEverywhere(m: Backend, m': Backend)
    requires AgreeOutside(m, m', {})
    ensures m == m'
  {
    forall k
      ensures k in m <==> k in m'
      ensures k in m ==> m[k] == m'[k]
    {
      assert ValueOf(m, k) == ValueOf(m', k);
    }
  }

  lemma RestoreOne(before: Backend, now: Backend, now': Backend, pending: seq<Secret>, n: nat)
    requires 0 < n <= |pending| && DistinctKeys(pending) && RestoredFrom(before, now, pending, n)
    requires ValueOf(now', pending[n - 1].key) == ValueOf(before, pending[n - 1].key)
    requires AgreeOutside(now, now', {pending[n - 1].key})
    ensures RestoredFrom(before, now', pending, n - 1)
  {
    forall k | k !in KeysOf(pending[..n - 1])
      ensures ValueOf(before, k) == ValueOf(now', k)
    {
      if k != pending[n - 1].key {
        KeyBefore(pending, n, k);
        assert ValueOf(before, k) == ValueOf(now, k) && ValueOf(now, k) == ValueOf(now', k);
      }
    }
  }

  lemma KeyBefore(pending: seq<Secret>, n: nat, k: string)
    requires 0 < n <= |pending| && k != pending[n - 1].key
    ensures k in KeysOf(pending[..n]) ==> k in KeysOf(pending[..n - 1])
  {
    if k in KeysOf(pending[..n]) {
      var i :| 0 <= i < n && pending[..n][i].key == k;
      assert pending[..n - 1][i].key == k;
    }
  }

  lemma KeyAt(pending: seq<Secret>, i: nat)
    requires i < |pending|
    ensures pending[i].key in KeysOf(pending)
  {
  }

  // ---------------------------------------------------------------- pending secrets

  function LastValue(literals: seq<Secret>, key: string): Option<string> {
    if literals == [] then None
    else
      var last := literals[|literals| - 1];
      if last.key == key then Some(last.value) else LastValue(literals[..|literals| - 1], key)
  }

  /** One write per key, in order of first appearance, with the value that appears last. */
  ghost predicate Collected(literals: seq<Secret>, pending: seq<Secret>) {
    && DistinctKeys(pending)
    && (forall i | 0 <= i < |pending| :: LastValue(literals, pending[i].key) == Some(pending[i].value))
    && (forall key :: LastValue(literals, key).Some? ==> key in KeysOf(pending))
  }

  ghost predicate Indexes(pending: seq<Secret>, index: map<string, int>) {
    && (forall i | 0 <= i < |pending| :: pending[i].key in index && index[pending[i].key] == i)
    && (forall key | key in index :: 0 <= index[key] < |pending| && pending[index[key]].key == key)
  }

  lemma LastValueSnoc(literals: seq<Secret>, x: Secret, key: string)
    ensures LastValue(literals + [x], key) == if x.key == key then Some(x.value) else LastValue(literals, key)
  {
    assert (literals + [x])[..|literals|] == literals;
  }

  lemma CollectOld(literals: seq<Secret>, x: Secret, pending: seq<Secret>, at: nat)
    requires Collected(literals, pending) && at < |pending| && pending[at].key == x.key
    ensures Collected(literals + [x], pending[at := x])
    ensures KeysOf(pending[at := x]) == KeysOf(pending)
  {
    hide LastValue;
    var all, now := literals + [x], pending[at := x];
    forall i | 0 <= i < |now|
      ensures now[i].key == pending[i].key && LastValue(all, now[i].key) == Some(now[i].value)
    {
      LastValueSnoc(literals, x, now[i].key);
    }
    forall key | LastValue(all, key).Some?
      ensures key in KeysOf(now)
    {
      LastValueSnoc(literals, x, key);
      if key == x.key {
        assert now[at].key == key;
      } else {
        assert key in KeysOf(pending);
        var i :| 0 <= i < |pending| && pending[i].key == key;
        assert now[i].key == key;
      }
    }
    forall key | key in KeysOf(pending)
      ensures key in KeysOf(now)
    {
      var i :| 0 <= i < |pending| && pending[i].key == key;
      assert now[i].key == key;
    }
  }

  lemma CollectNew(literals: seq<Secret>, x: Secret, pending: seq<Secret>)
    requires Collected(literals, pending) && x.key !in KeysOf(pending)
    ensures Collected(literals + [x], pending + [x])
  {
    hide LastValue;
    var all, now := literals + [x], pending + [x];
    forall i | 0 <= i < |now|
      ensures i < |pending| ==> now[i].key != x.key
      ensures LastValue(all, now[i].key) == Some(now[i].value)
    {
      if i < |pending| {
        KeyAt(pending, i);
      }
      LastValueSnoc(literals, x, now[i].key);
    }
    forall key | LastValue(all, key).Some?
      ensures key in KeysOf(now)
    {
      LastValueSnoc(literals, x, key);
      if key == x.key {
        assert now[|pending|].key == key;
      } else {
        assert key in KeysOf(pending);
        var i :| 0 <= i < |pending| && pending[i].key == key;
        assert now[i].key == key;
      }
    }
  }

  /** The pending writes of prepareSecrets. */
  method CollectPending(literals: seq<Secret>) returns (pending: seq<Secret>)
    ensures Collected(literals, pending) && DistinctKeys(pending)
  {
    pending := [];
    var index: map<string, int> := map[];
    for i := 0 to |literals|
      invariant Collected(literals[..i], pending) && Indexes(pending, index)
    {
      var x := literals[i];
      assert literals[..i + 1] == literals[..i] + [x];
      if x.key in index {
        CollectOld(literals[..i], x, pending, index[x.key]);
        pending := pending[index[x.key] := x];
      } else {
        CollectNew(literals[..i], x, pending);
        index := index[x.key := |pending|];
        pending := pending + [x];
      }
    }
    assert literals[..|literals|] == literals;
  }

  // ---------------------------------------------------------------- the resources

  datatype Status = NotCommitted | Committed | Conflict | NeedsRecovery

  datatype RefState = RefExpected | RefCandidate | RefOther | RefUnknown

  datatype BackendState = BackendUnchanged | BackendApplied | BackendRestored | BackendUncertain

  datatype Failure =
    | NoFailure | InvalidBaseline | BackendFailure | CandidateFailure | RefPrepare | ObjectPublish | RefCommit
    | Quarantine | Cleanup

  datatype CommitOutcome = CommitOutcome(status: Status, refState: RefState, backend: BackendState, failure: Failure,
                                         recoveryRequired: bool)

  /** The report holds of what happened to the two resources. */
  ghost predicate Truthful(o: CommitOutcome, before: Backend, after: Backend, pending: seq<Secret>, published: bool) {
    && (o.status == Committed ==> published && Stored(before, after, pending))
    && (o.status != Committed && !o.recoveryRequired ==> after == before)
    && (o.status == NeedsRecovery ==> o.recoveryRequired)
  }

  /** Every literal is stored with its last value and nothing else changed. */
  ghost predicate StoredLiterals(before: Backend, after: Backend, literals: seq<Secret>) {
    forall key :: ValueOf(after, key) ==
                  if LastValue(literals, key).Some? then LastValue(literals, key) else ValueOf(before, key)
  }

  lemma StoresLiterals(before: Backend, after: Backend, literals: seq<Secret>, pending: seq<Secret>)
    requires Collected(literals, pending) && Stored(before, after, pending)
    ensures StoredLiterals(before, after, literals)
  {
    hide LastValue, ValueOf;
    forall key
      ensures ValueOf(after, key) ==
              if LastValue(literals, key).Some? then LastValue(literals, key) else ValueOf(before, key)
    {
      if key in KeysOf(pending) {
        var i :| 0 <= i < |pending| && pending[i].key == key;
        assert LastValue(literals, pending[i].key) == Some(pending[i].value);
      }
    }
  }

  /** The report on a commit of these literals holds of what happened to the two resources. */
  ghost predicate Honest(o: CommitOutcome, before: Backend, after: Backend, literals: seq<Secret>, published: bool) {
    && (o.status == Committed ==> published && StoredLiterals(before, after, literals))
    && (o.status != Committed && !o.recoveryRequired ==> after == before)
    && (o.status == NeedsRecovery ==> o.recoveryRequired)
  }

  datatype Applying = AllStored | PutBack | RollbackFailed

  datatype Preparing = Locked | LockRejected | PrepareFailed

  datatype Publication = Publication(ok: bool, created: nat, uncertain: bool)

  /**
   * How the steps end that this model does not look into: validation of the claim, the literals
   * that redaction takes out of the profile, the root lock, the candidate commit, its objects and the cleanup.
   */
  datatype Given = Given(
    expected: Option<string>,
    baselineValid: bool,
    refDirect: bool,
    literals: Option<seq<Secret>>,
    rootEntered: bool,
    candidate: Option<string>,
    mutationEncodes: bool,
    stillDirect: bool,
    sessionStarts: bool,
    objects: Publication,
    revisionValid: bool,
    guardStarts: bool,
    rootReleased: bool,
    quarantineRemoved: bool,
    cleanupRecovery: bool)

  const DEFAULT_OUTCOME: CommitOutcome := CommitOutcome(NotCommitted, RefExpected, BackendUnchanged, NoFailure, false)

  function Recovering(o: CommitOutcome, refState: RefState, failure: Failure): CommitOutcome {
    o.(status := NeedsRecovery, refState := refState, failure := failure, recoveryRequired := true)
  }

  /** What a lost commit response comes to when the reference is found at `ref`. */
  function Reconciled(given: Given, candidate: string, ref: Option<string>, stored: bool,
                      start: CommitOutcome): CommitOutcome {
    if ref == Some(candidate) then
      if given.revisionValid then CommittedAs(start) else Recovering(start, RefUnknown, RefCommit)
    else if ref == given.expected then
      if given.guardStarts then
        start.(status := NotCommitted, refState := RefExpected, failure := RefCommit, recoveryRequired := false,
               backend := if stored then BackendRestored else start.backend)
      else Recovering(start, RefExpected, RefCommit).(backend := BackendUncertain)
    else Recovering(start, if ref.None? then RefUnknown else RefOther, RefCommit)
  }

  /** The outcome once the objects are published and the reference took the candidate. */
  function Published(given: Given, stored: bool): CommitOutcome {
    var start := DEFAULT_OUTCOME.(backend := if stored then BackendApplied else BackendUnchanged);
    if given.revisionValid then CommittedAs(start) else Recovering(start, RefUnknown, RefCommit)
  }

  /** Under the root lock a commit gets as far as asking for the reference. */
  predicate Asks(given: Given) {
    given.candidate.Some? && given.mutationEncodes && given.stillDirect && given.sessionStarts
  }

  /** An ingest commit gets as far as asking for the reference. */
  predicate Reaches(given: Given) {
    given.baselineValid && given.refDirect && given.literals.Some? && given.rootEntered && Asks(given)
  }

  function CommittedAs(o: CommitOutcome): CommitOutcome {
    o.(status := Committed, refState := RefCandidate, failure := NoFailure)
  }

  datatype WorktreeResult = WorktreeResult(committed: bool, conflict: bool, recoveryRequired: bool)

  const NOTHING: WorktreeResult := WorktreeResult(false, false, false)

  class Store {
    const env: Environment
    var ref: Option<string>
    var backend: Backend
    var locked: bool
    var clock: nat
    /** Every value the reference was seen to hold or was given. */
    ghost var held: set<Option<string>>

    constructor (env: Environment, ref: Option<string>, backend: Backend)
      ensures this.env == env && this.ref == ref && this.backend == backend && !locked && held == {ref}
    {
      this.env := env;
      this.ref := ref;
      this.backend := backend;
      locked := false;
      clock := 0;
      held := {ref};
    }

    ghost predicate Valid()
      reads `ref, `held
    {
      ref in held
    }

    /** From here on nobody else moves the reference and every step succeeds. */
    ghost predicate Steady()
      reads `clock
    {
      forall k | clock <= k :: env(k).ok && env(k).moved.None?
    }

    method Tick() returns (turn: Turn)
      requires Valid()
      modifies `ref, `clock, `held
      ensures turn == env(old(clock))
      ensures old(held) <= held && Valid()
      ensures locked || turn.moved.None? ==> ref == old(ref)
      ensures old(Steady()) ==> Steady() && turn.ok && ref == old(ref)
    {
      turn := env(clock);
      clock := clock + 1;
      if !locked && turn.moved.Some? {
        ref := turn.moved.value;
        held := held + {ref};
      }
    }

    // -------------------------------------------------------------- secret backend

    method Retrieve(key: string) returns (r: Option<Option<string>>)
      requires Valid()
      modifies `ref, `clock, `held
      ensures old(held) <= held && Valid()
      ensures locked || Undisturbed(env) ==> ref == old(ref)
      ensures r.Some? ==> r.value == ValueOf(backend, key)
      ensures old(Steady()) ==> Steady() && ref == old(ref) && r.Some?
    {
      var turn := Tick();
      r := if turn.ok then Some(ValueOf(backend, key)) else None;
    }

    /** Stores a value, or deletes when there is none; a missing key is no error on deletion. */
    method Put(key: string, value: Option<string>) returns (ok: bool)
      requires Valid()
      modifies `ref, `clock, `held, `backend
      ensures old(held) <= held && Valid()
      ensures locked || Undisturbed(env) ==> ref == old(ref)
      ensures AgreeOutside(old(backend), backend, {key})
      ensures ok ==> ValueOf(backend, key) == value
      ensures old(Steady()) ==> Steady() && ref == old(ref) && ok
    {
      var turn := Tick();
      if turn.ok || turn.applied {
        backend := if value.Some? then backend[key := value.value] else map k | k in backend && k != key :: backend[k];
      }
      ok := turn.ok;
    }

    method SnapshotSecretPriors(pending: seq<Secret>) returns (priors: Option<seq<Prior>>)
      requires Valid()
      modifies `ref, `clock, `held
      ensures old(held) <= held && Valid()
      ensures locked || Undisturbed(env) ==> ref == old(ref)
      ensures priors.Some? ==> Recalls(backend, pending, priors.value)
      ensures old(Steady()) ==> Steady() && ref == old(ref) && priors.Some?
    {
      var found: seq<Prior> := [];
      for i := 0 to |pending|
        invariant old(held) <= held && Valid()
        invariant locked || Undisturbed(env) ==> ref == old(ref)
        invariant Recalls(backend, pending[..i], found)
        invariant old(Steady()) ==> Steady() && ref == old(ref)
      {
        var value := Retrieve(pending[i].key);
        if value.None? {
          return None;
        }
        found := found + [Prior(pending[i].key, value.value)];
      }
      assert pending[..|pending|] == pending;
      priors := Some(found);
    }

    /** Puts every prior value back, last first, and goes on after a failure. */
    method RestoreSecretPriors(ghost before: Backend, ghost pending: seq<Secret>, priors: seq<Prior>) returns (ok: bool)
      requires DistinctKeys(pending) && Recalls(before, pending, priors)
      requires AgreeOutside(before, backend, KeysOf(pending))
      requires Valid()
      modifies `ref, `clock, `held, `backend
      ensures old(held) <= held && Valid()
      ensures locked || Undisturbed(env) ==> ref == old(ref)
      ensures ok ==> backend == before
      ensures old(Steady()) ==> Steady() && ref == old(ref) && ok
    {
      var failed := false;
      var index := |priors|;
      assert pending[..index] == pending;
      while index > 0
        invariant 0 <= index <= |priors|
        invariant old(held) <= held && Valid()
        invariant locked || Undisturbed(env) ==> ref == old(ref)
        invariant !failed ==> RestoredFrom(before, backend, pending, index)
        invariant old(Steady()) ==> Steady() && ref == old(ref) && !failed
      {
        index := index - 1;
        ghost var now := backend;
        var put := Put(priors[index].key, priors[index].value);
        if !put {
          failed := true;
        } else if !failed {
          RestoreOne(before, now, backend, pending, index + 1);
        }
      }
      if !failed {
        assert KeysOf(pending[..0]) == {};
        AgreeEverywhere(before, backend);
      }
      ok := !failed;
    }

    /**
     * Stores every pending secret, or puts back what it already stored. Without an error all
     * are stored; with an error that is not a failed rollback the backend is as before.
     */
    method ApplyPreparedSecrets(pending: seq<Secret>) returns (priors: seq<Prior>, result: Applying)
      requires DistinctKeys(pending)
      requires Valid()
      modifies `ref, `clock, `held, `backend
      ensures old(held) <= held && Valid()
      ensures locked || Undisturbed(env) ==> ref == old(ref)
      ensures result == AllStored ==> Stored(old(backend), backend, pending) && Recalls(old(backend), pending, priors)
      ensures result == PutBack ==> backend == old(backend)
      ensures old(Steady()) ==> Steady() && ref == old(ref) && result == AllStored
    {
      ghost var before := backend;
      priors := [];
      if |pending| == 0 {
        return priors, AllStored;
      }
      var snapshot := SnapshotSecretPriors(pending);
      if snapshot.None? {
        return priors, PutBack;
      }
      priors := snapshot.value;
      for i := 0 to |pending|
        invariant old(held) <= held && Valid()
        invariant locked || Undisturbed(env) ==> ref == old(ref)
        invariant AgreeOutside(before, backend, KeysOf(pending))
        invariant old(Steady()) ==> Steady() && ref == old(ref)
        invariant forall j | 0 <= j < i :: ValueOf(backend, pending[j].key) == Some(pending[j].value)
      {
        KeyAt(pending, i);
        var stored := Put(pending[i].key, Some(pending[i].value));
        if !stored {
          var restored := RestoreSecretPriors(before, pending, priors);
          return priors, if restored then PutBack else RollbackFailed;
        }
      }
      result := AllStored;
    }

    // -------------------------------------------------------------- reference sessions

    method Observe() returns (observed: Option<Option<string>>)
      requires Valid()
      modifies `ref, `clock, `held
      ensures old(held) <= held && Valid()
      ensures locked || Undisturbed(env) ==> ref == old(ref)
      ensures observed.Some? ==> observed.value == ref
      ensures old(Steady()) ==> Steady() && ref == old(ref) && observed == Some(ref)
    {
      var turn := Tick();
      observed := if turn.ok then Some(ref) else None;
    }

    /** Locks the reference if it holds the expected value. */
    method Prepare(expected: Option<string>) returns (r: Preparing)
      requires !locked
      requires Valid()
      modifies `ref, `clock, `held, `locked
      ensures old(held) <= held && Valid()
      ensures Undisturbed(env) ==> ref == old(ref)
      ensures locked <==> r == Locked
      ensures r == Locked ==> ref == expected
      ensures Undisturbed(env) && ref != expected ==> r == LockRejected
      ensures old(Steady()) ==> Steady() && ref == old(ref) && r == if ref == expected then Locked else LockRejected
    {
      var turn := Tick();
      if turn.ok && ref == expected {
        locked := true;
        return Locked;
      }
      r := if ref != expected || turn.applied then LockRejected else PrepareFailed;
    }

    /** Commits a prepared session; without a good response the update may or may not have happened. */
    method CommitSession(candidate: string) returns (ok: bool)
      requires locked
      requires Valid()
      modifies `ref, `clock, `held, `locked
      ensures old(held) <= held && Valid()
      ensures !locked && (ref == old(ref) || ref == Some(candidate))
      ensures ok ==> ref == Some(candidate)
      ensures old(Steady()) ==> Steady() && ok
    {
      var turn := Tick();
      if turn.ok || turn.applied {
        ref := Some(candidate);
        held := held + {ref};
      }
      locked := false;
      ok := turn.ok;
    }

    method Abort() returns (ok: bool)
      requires locked
      requires Valid()
      modifies `ref, `clock, `held, `locked
      ensures old(held) <= held && Valid()
      ensures !locked && ref == old(ref)
      ensures old(Steady()) ==> Steady() && ok
    {
      var turn := Tick();
      locked := false;
      ok := turn.ok;
    }

    // -------------------------------------------------------------- the ingest commit

    method CleanupCommittedTransaction(given: Given, o: CommitOutcome) returns (after: CommitOutcome)
      ensures after.status == o.status && (o.recoveryRequired ==> after == o)
      ensures !after.recoveryRequired ==> after == o
      ensures after == o.(recoveryRequired := after.recoveryRequired, failure := after.failure)
      ensures given.quarantineRemoved ==> after == o
      ensures o.failure != NoFailure ==> after.failure == o.failure
    {
      after := o;
      if o.recoveryRequired || o.status == NeedsRecovery || given.quarantineRemoved {
        return;
      }
      after := after.(recoveryRequired := true);
      if after.failure == NoFailure {
        after := after.(failure := Cleanup);
      }
    }

    /** What an outcome without recovery says about the reference when nobody else moved it. */
    ghost predicate RefTruthful(o: CommitOutcome, before: Option<string>, candidate: string)
      reads `ref
    {
      Undisturbed(env) ==>
        && (o.status == Committed ==> ref == Some(candidate))
        && (o.status != Committed && !o.recoveryRequired ==> ref == before)
    }

    /**
     * The two-resource commit tells the truth: committed means the reference held the candidate
     * and every pending secret is stored; anything else either needs recovery, and says so, or
     * left the backend exactly as it was.
     */
    method CommitIngest(given: Given) returns (o: CommitOutcome)
      requires Valid() && !locked
      modifies `ref, `clock, `held, `locked, `backend
      ensures Valid() && old(held) <= held
      ensures o.status == Committed ==> given.literals.Some? && given.candidate.Some?
      ensures Honest(o, old(backend), backend, if given.literals.Some? then given.literals.value else [],
                     given.candidate.Some? && Some(given.candidate.value) in held)
      ensures given.candidate.Some? && given.candidate != given.expected ==>
                RefTruthful(o, old(ref), given.candidate.value)
      ensures o.status == Committed ==> Reaches(given) && given.objects.ok && given.revisionValid
      ensures o.status == Conflict ==>
                Reaches(given) && backend == old(backend) && (Undisturbed(env) ==> ref == old(ref))
      ensures !Reaches(given) ==> backend == old(backend) && ref == old(ref)
      ensures Undisturbed(env) && ref != old(ref) ==>
                && Reaches(given) && given.objects.ok && ref == given.candidate
                && StoredLiterals(old(backend), backend, given.literals.value)
      ensures old(Steady()) && Reaches(given) && old(ref) == given.expected && given.objects.ok &&
              given.revisionValid ==>
                && ref == given.candidate && StoredLiterals(old(backend), backend, given.literals.value)
                && o.status == Committed && o.refState == RefCandidate
                && (given.rootReleased && given.quarantineRemoved ==> !o.recoveryRequired && o.failure == NoFailure)
      ensures old(Steady()) && Reaches(given) && old(ref) == given.expected && !given.objects.ok ==>
                && ref == old(ref) && backend == old(backend)
                && (given.rootReleased ==> o.status == NotCommitted && o.failure == ObjectPublish)
      ensures old(Steady()) && Reaches(given) && given.rootReleased ==>
                (o.status == Conflict <==> old(ref) != given.expected)
      ensures Undisturbed(env) && Reaches(given) && given.rootReleased && old(ref) != given.expected ==>
                o.status == Conflict
    {
      hide AgreeOutside, KeysOf, Undisturbed, Stored, StoredLiterals, LastValue, DistinctKeys;
      o := DEFAULT_OUTCOME;
      if !given.baselineValid {
        o := CleanupCommittedTransaction(given, o.(failure := InvalidBaseline));
        return;
      }
      if !given.refDirect {
        return Recovering(o, RefUnknown, RefPrepare);
      }
      if given.literals.None? {
        o := CleanupCommittedTransaction(given, o.(failure := BackendFailure));
        return;
      }
      var pending := CollectPending(given.literals.value);
      if given.rootEntered {
        o := CommitLocked(given, pending);
        if Stored(old(backend), backend, pending) {
          StoresLiterals(old(backend), backend, given.literals.value, pending);
        }
      }
      if !given.rootEntered || !given.rootReleased {
        o := o.(status := if o.status == Committed then Committed else NeedsRecovery, failure := Quarantine,
                recoveryRequired := true);
      }
      if !o.recoveryRequired {
        o := CleanupCommittedTransaction(given, o);
      }
    }

    /** The part of a commit under the root lock. */
    method CommitLocked(given: Given, pending: seq<Secret>) returns (o: CommitOutcome)
      requires Valid() && !locked && DistinctKeys(pending)
      modifies `ref, `clock, `held, `locked, `backend
      ensures Valid() && old(held) <= held
      ensures o.status == Committed ==> given.candidate.Some?
      ensures Truthful(o, old(backend), backend, pending, given.candidate.Some? && Some(given.candidate.value) in held)
      ensures given.candidate.Some? && given.candidate != given.expected ==>
                RefTruthful(o, old(ref), given.candidate.value)
      ensures o.status == Committed ==> Asks(given) && given.objects.ok && given.revisionValid
      ensures o.status == Conflict ==> Asks(given) && backend == old(backend) && (Undisturbed(env) ==> ref == old(ref))
      ensures !Asks(given) ==> backend == old(backend) && ref == old(ref)
      ensures Undisturbed(env) && Asks(given) && old(ref) != given.expected ==> o.status == Conflict
      ensures Undisturbed(env) && ref != old(ref) ==>
                && Asks(given) && given.objects.ok && ref == given.candidate && Stored(old(backend), backend, pending)
      ensures old(Steady()) && Asks(given) && old(ref) == given.expected && given.objects.ok ==>
                && ref == given.candidate && Stored(old(backend), backend, pending) &&
                   o == Published(given, pending != [])
      ensures old(Steady()) && Asks(given) && old(ref) == given.expected && !given.objects.ok ==>
                && ref == old(ref) && backend == old(backend) && o.status == NotCommitted && o.failure == ObjectPublish
                && (o.recoveryRequired <==> given.objects.created > 0 || given.objects.uncertain)
      ensures old(Steady()) && Asks(given) ==> (o.status == Conflict <==> old(ref) != given.expected)
    {
      hide AgreeOutside, KeysOf, Undisturbed;
      o := DEFAULT_OUTCOME;
      if given.candidate.None? {
        return o.(failure := CandidateFailure);
      }
      if !given.mutationEncodes {
        return o.(failure := InvalidBaseline);
      }
      if !given.stillDirect {
        return Recovering(o, RefUnknown, RefPrepare);
      }
      if !given.sessionStarts {
        return o.(failure := RefPrepare);
      }
      var prepared := Prepare(given.expected);
      if prepared != Locked {
        return o.(status := Conflict, refState := RefExpected, failure := RefPrepare);
      }
      o := CommitPrepared(given, pending, given.candidate.value);
    }

    /** The part of a commit that holds the reference: secrets, objects, then the reference. */
    method CommitPrepared(given: Given, pending: seq<Secret>, candidate: string) returns (o: CommitOutcome)
      requires Valid() && locked && ref == given.expected && DistinctKeys(pending)
      modifies `ref, `clock, `held, `locked, `backend
      ensures Valid() && old(held) <= held
      ensures Truthful(o, old(backend), backend, pending, Some(candidate) in held)
      ensures Some(candidate) != given.expected ==> RefTruthful(o, old(ref), candidate)
      ensures o.status == Committed ==> given.objects.ok && given.revisionValid
      ensures o.status != Conflict
      ensures Undisturbed(env) && ref != old(ref) ==>
                given.objects.ok && ref == Some(candidate) && Stored(old(backend), backend, pending)
      ensures old(Steady()) && given.objects.ok ==>
                && ref == Some(candidate) && Stored(old(backend), backend, pending)
                && o == Published(given, pending != [])
      ensures old(Steady()) && !given.objects.ok ==>
                && ref == old(ref) && backend == old(backend) && o.status == NotCommitted && o.failure == ObjectPublish
                && (o.recoveryRequired <==> given.objects.created > 0 || given.objects.uncertain)
    {
      hide AgreeOutside, KeysOf, Undisturbed;
      o := DEFAULT_OUTCOME;
      var priors, applied := ApplyPreparedSecrets(pending);
      if applied != AllStored {
        o := o.(failure := BackendFailure, backend := BackendRestored);
        if applied == RollbackFailed {
          o := o.(backend := BackendUncertain, recoveryRequired := true);
        }
        var aborted := Abort();
        if !aborted {
          o := o.(recoveryRequired := true);
        }
        return;
      }
      if |pending| > 0 {
        o := o.(backend := BackendApplied);
      }
      if !given.objects.ok {
        o := Unpublished(given, old(backend), pending, priors, o);
        return;
      }
      var committed := CommitSession(candidate);
      if committed {
        return if given.revisionValid then CommittedAs(o) else Recovering(o, RefUnknown, RefCommit);
      }
      o := ReconcileIngest(given, old(backend), pending, priors, candidate, o);
    }

    /** The objects could not be published: puts the secrets back and gives the reference up. */
    method Unpublished(given: Given, ghost before: Backend, ghost pending: seq<Secret>, priors: seq<Prior>,
                       start: CommitOutcome)
      returns (o: CommitOutcome)
      requires Valid() && locked && DistinctKeys(pending) && Recalls(before, pending, priors) &&
               Stored(before, backend, pending)
      requires start.status == NotCommitted && !start.recoveryRequired
      modifies `ref, `clock, `held, `locked, `backend
      ensures Valid() && old(held) <= held && ref == old(ref)
      ensures o.status == NotCommitted && (!o.recoveryRequired ==> backend == before)
      ensures old(Steady()) ==>
                && backend == before && o.failure == ObjectPublish && o.refState == start.refState
                && (o.recoveryRequired <==> given.objects.created > 0 || given.objects.uncertain)
    {
      hide AgreeOutside, KeysOf, Undisturbed;
      o := start.(failure := ObjectPublish);
      if given.objects.created > 0 || given.objects.uncertain {
        o := o.(recoveryRequired := true);
      }
      var restored := RestoreSecretPriors(before, pending, priors);
      if !restored {
        o := o.(backend := BackendUncertain, recoveryRequired := true);
      } else if |priors| > 0 {
        o := o.(backend := BackendRestored);
      }
      var aborted := Abort();
      if !aborted {
        o := o.(recoveryRequired := true);
      }
    }

    /** The commit response was lost: decides by what the reference holds now. */
    method ReconcileIngest(given: Given, ghost before: Backend, ghost pending: seq<Secret>, priors: seq<Prior>,
                           candidate: string, start: CommitOutcome)
      returns (o: CommitOutcome)
      requires Valid() && !locked && DistinctKeys(pending)
      requires Recalls(before, pending, priors) && Stored(before, backend, pending)
      modifies `ref, `clock, `held, `locked, `backend
      ensures Valid() && old(held) <= held
      ensures Truthful(o, before, backend, pending, Some(candidate) in held)
      ensures Undisturbed(env) ==> ref == old(ref)
      ensures o.status == Committed && Undisturbed(env) ==> ref == Some(candidate)
      ensures o.status != Committed && !o.recoveryRequired && Undisturbed(env) ==> ref == given.expected
      ensures o.status == Committed ==> given.revisionValid
      ensures Undisturbed(env) && old(ref) != given.expected ==> Stored(before, backend, pending)
      ensures o.status != Conflict
      ensures old(Steady()) ==> ref == old(ref) && o == Reconciled(given, candidate, ref, |priors| > 0, start)
    {
      hide AgreeOutside, KeysOf, Undisturbed;
      var observed := Observe();
      if observed == Some(Some(candidate)) {
        return if given.revisionValid then CommittedAs(start) else Recovering(start, RefUnknown, RefCommit);
      }
      if observed == Some(given.expected) {
        var restored := RestoreGuarded(given, before, pending, priors);
        if restored {
          return start.(status := NotCommitted, refState := RefExpected, failure := RefCommit,
                        recoveryRequired := false,
                        backend := if |priors| > 0 then BackendRestored else start.backend);
        }
        return Recovering(start, RefExpected, RefCommit).(backend := BackendUncertain);
      }
      o := Recovering(start, if observed.None? || observed.value.None? then RefUnknown else RefOther, RefCommit);
    }

    /** Puts the secrets back while a guard session holds the reference at its expected value. */
    method RestoreGuarded(given: Given, ghost before: Backend, ghost pending: seq<Secret>, priors: seq<Prior>)
      returns (ok: bool)
      requires Valid() && !locked && DistinctKeys(pending)
      requires Recalls(before, pending, priors) && Stored(before, backend, pending)
      modifies `ref, `clock, `held, `locked, `backend
      ensures Valid() && old(held) <= held && !locked
      ensures ok ==> backend == before && ref == given.expected
      ensures Undisturbed(env) ==> ref == old(ref)
      ensures old(Steady()) ==> Steady() && ref == old(ref) && (ok <==> given.guardStarts && ref == given.expected)
    {
      hide AgreeOutside, KeysOf, Undisturbed;
      if !given.guardStarts {
        return false;
      }
      var prepared := Prepare(given.expected);
      if prepared != Locked {
        return false;
      }
      ok := RestoreSecretPriors(before, pending, priors);
      var aborted := Abort();
      ok := ok && aborted;
    }

    // -------------------------------------------------------------- the worktree commit

    /**
     * Publishes a worktree document by the same protocol. A result that is neither committed
     * nor in need of recovery left both the backend and the reference as they were.
     */
    method CommitWorktree(literals: Option<seq<Secret>>, expected: string, candidate: Option<string>,
                          sessionStarts: bool,
                          guardStarts: bool)
      returns (r: WorktreeResult)
      requires Valid() && !locked
      modifies `ref, `clock, `held, `locked, `backend
      ensures Valid() && old(held) <= held
      ensures r.committed ==> literals.Some? && candidate.Some? && Some(candidate.value) in held &&
                              StoredLiterals(old(backend), backend, literals.value) && !r.conflict
      ensures !r.committed && !r.recoveryRequired ==> backend == old(backend)
      ensures r.conflict ==> !r.committed && !r.recoveryRequired
      ensures candidate != Some(expected) && Undisturbed(env) ==>
                && (r.committed ==> ref == candidate)
                && (!r.committed && !r.recoveryRequired ==> ref == old(ref))
      ensures r.committed ==> sessionStarts
      ensures r.conflict ==> backend == old(backend) && (Undisturbed(env) ==> ref == old(ref))
      ensures literals.None? || candidate.None? || !sessionStarts ==> backend == old(backend)
      ensures Undisturbed(env) && ref != old(ref) ==>
                && literals.Some? && candidate.Some? && sessionStarts && old(ref) == Some(expected) && ref == candidate
                && StoredLiterals(old(backend), backend, literals.value)
      ensures old(Steady()) && old(ref) != Some(expected) ==>
                r == NOTHING.(conflict := true) && backend == old(backend) && ref == old(ref)
      ensures old(Steady()) && old(ref) == Some(expected) && literals.Some? && candidate.Some? && sessionStarts ==>
                && r == NOTHING.(committed := true) && ref == candidate
                && StoredLiterals(old(backend), backend, literals.value)
    {
      hide AgreeOutside, KeysOf, Undisturbed, StoredLiterals, LastValue, DistinctKeys;
      var observed := Observe();
      if observed.None? {
        return NOTHING;
      }
      if observed.value != Some(expected) {
        return NOTHING.(conflict := true);
      }
      if literals.None? || candidate.None? || !sessionStarts {
        return NOTHING;
      }
      var pending := CollectPending(literals.value);
      var prepared := Prepare(Some(expected));
      if prepared != Locked {
        return NOTHING.(conflict := prepared == LockRejected);
      }
      var priors, applied := ApplyPreparedSecrets(pending);
      if applied != AllStored {
        var aborted := Abort();
        return NOTHING.(recoveryRequired := applied == RollbackFailed || !aborted);
      }
      var committed := CommitSession(candidate.value);
      if committed {
        StoresLiterals(old(backend), backend, literals.value, pending);
        return NOTHING.(committed := true);
      }
      r := ReconcileWorktreeCommit(old(backend), pending, priors, expected, candidate.value, guardStarts);
      if Stored(old(backend), backend, pending) {
        StoresLiterals(old(backend), backend, literals.value, pending);
      }
    }

    method ReconcileWorktreeCommit(ghost before: Backend, ghost pending: seq<Secret>, priors: seq<Prior>,
                                   expected: string, candidate: string, guardStarts: bool)
      returns (r: WorktreeResult)
      requires Valid() && !locked && DistinctKeys(pending)
      requires Recalls(before, pending, priors) && Stored(before, backend, pending)
      modifies `ref, `clock, `held, `locked, `backend
      ensures Valid() && old(held) <= held && !r.conflict
      ensures r.committed ==> Some(candidate) in held && Stored(before, backend, pending)
      ensures !r.committed && !r.recoveryRequired ==> backend == before
      ensures Undisturbed(env) ==> ref == old(ref)
      ensures r.committed && Undisturbed(env) ==> ref == Some(candidate)
      ensures !r.committed && !r.recoveryRequired && Undisturbed(env) ==> ref == Some(expected)
      ensures Undisturbed(env) && old(ref) != Some(expected) ==> Stored(before, backend, pending)
      ensures old(Steady()) ==>
                && (r.committed <==> ref == Some(candidate))
                && (r.recoveryRequired <==> ref == Some(candidate) || ref != Some(expected) || !guardStarts)
    {
      hide AgreeOutside, KeysOf, Undisturbed;
      var observed := Observe();
      if observed == Some(Some(candidate)) {
        return NOTHING.(committed := true, recoveryRequired := true);
      }
      if observed != Some(Some(expected)) || !guardStarts {
        return NOTHING.(recoveryRequired := true);
      }
      var prepared := Prepare(Some(expected));
      if prepared != Locked {
        return NOTHING.(recoveryRequired := true);
      }
      var restored := RestoreSecretPriors(before, pending, priors);
      var aborted := Abort();
      r := NOTHING.(recoveryRequired := !restored || !aborted);
    }
  }
}
