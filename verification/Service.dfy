/**
 * The service over its store (core/worktree/service.go, WithTransaction of
 * core/worktree/state.go): a transaction runs one callback on a copy of the canonical state
 * and stores the copy only when the callback succeeds and the copy validates.
 */
module Service {
  import opened Wrappers
  import opened State
  import opened Registry
  import opened Steps
  import opened Runs
  import opened Callbacks

  /** What a client is told: the reply of a stored step, or why nothing was stored. */
  function Answer(step: Result<Step, Error>): Result<Reply, Error> {
    match step
    case Err(e) => Err(e)
    case Ok(next) => if ValidState(next.state) then Ok(next.reply) else Err(Rejected)
  }

  function Outcome(next: Result<State, Error>): Option<Error> {
    match next
    case Err(e) => Some(e)
    case Ok(s) => if ValidState(s) then None else Some(Rejected)
  }

  /** A commit the repository accepted but the store rejected needs recovery. */
  function CommitAnswer(o: CommitOutcome): (CommitResult, Option<Error>) {
    if ValidState(o.state) then (o.result, o.error)
    else if o.result.committed then (o.result.(recoveryRequired := true), Some(RecoveryRequired))
    else (o.result, Some(Rejected))
  }

  class Service {
    const policy: Policy
    var state: State

    constructor (policy: Policy)
      ensures this.policy == policy && state == INITIAL && ValidState(state)
    {
      this.policy := policy;
      state := INITIAL;
    }

    /** The commit of a transaction: validate, then replace. */
    method Store(step: Result<Step, Error>) returns (r: Result<Reply, Error>)
      requires ValidState(state)
      modifies this`state
      ensures ValidState(state) && r == Answer(step)
      ensures state == if step.Ok? && ValidState(step.value.state) then step.value.state else old(state)
    {
      if step.Err? {
        return Err(step.error);
      }
      var valid := ValidateState(step.value.state);
      if !valid {
        return Err(Rejected);
      }
      state := step.value.state;
      r := Ok(step.value.reply);
    }

    method StoreState(next: Result<State, Error>) returns (error: Option<Error>)
      requires ValidState(state)
      modifies this`state
      ensures ValidState(state) && error == Outcome(next)
      ensures state == if next.Ok? && ValidState(next.value) then next.value else old(state)
    {
      if next.Err? {
        return Some(next.error);
      }
      var valid := ValidateState(next.value);
      if !valid {
        return Some(Rejected);
      }
      state := next.value;
      error := None;
    }

    method Materialize(branch: string, oid: string, committed: Committed) returns (error: Option<Error>)
      requires ValidState(state)
      modifies this`state
      ensures ValidState(state) && state == Next(policy, old(state), DoMaterialize(branch, oid, committed))
      ensures error == Outcome(MaterializeStep(policy, old(state), branch, oid, committed))
    {
      hide ValidState, MaterializeStep;
      var next := MaterializeCallback(policy, state, branch, oid, committed);
      error := StoreState(next);
    }

    method Attach(request: AttachRequest) returns (r: Result<Reply, Error>)
      requires ValidState(state)
      modifies this`state
      ensures ValidState(state) && state == Next(policy, old(state), DoAttach(request))
      ensures r == Answer(AttachStep(policy, old(state), request))
    {
      hide ValidState, AttachStep;
      var step := AttachCallback(policy, state, request);
      r := Store(step);
    }

    method Publish(request: PublishRequest) returns (r: Result<Reply, Error>)
      requires ValidState(state)
      modifies this`state
      ensures ValidState(state) && state == Next(policy, old(state), DoPublish(request))
      ensures r == Answer(PublishStep(policy, old(state), request))
    {
      hide ValidState, PublishStep;
      var step := PublishCallback(policy, state, request);
      r := Store(step);
    }

    method PreparePull(request: PrepareRequest) returns (r: Result<Reply, Error>)
      requires ValidState(state)
      modifies this`state
      ensures ValidState(state) && state == Next(policy, old(state), DoPrepare(request))
      ensures r == Answer(PrepareStep(old(state), request))
    {
      hide ValidState, PrepareStep;
      var step := PrepareCallback(state, request);
      r := Store(step);
    }

    method ResolveShared(request: ResolveRequest) returns (r: Result<Reply, Error>)
      requires ValidState(state)
      modifies this`state
      ensures ValidState(state) && state == Next(policy, old(state), DoResolve(request))
      ensures r == Answer(ResolveStep(policy, old(state), request))
    {
      hide ValidState, ResolveStep;
      var step := ResolveCallback(policy, state, request);
      r := Store(step);
    }

    method Acknowledge(request: AcknowledgeRequest) returns (r: Result<Reply, Error>)
      requires ValidState(state)
      modifies this`state
      ensures ValidState(state) && state == Next(policy, old(state), DoAcknowledge(request))
      ensures r == Answer(AcknowledgeStep(policy, old(state), request))
    {
      hide ValidState, AcknowledgeStep;
      var step := AcknowledgeCallback(policy, state, request);
      r := Store(step);
    }

    method RepairPublishedRef(current: RefReply) returns (error: Option<Error>)
      requires ValidState(state)
      modifies this`state
      ensures ValidState(state) && state == Next(policy, old(state), DoRepair(current))
      ensures error == if !old(state).materialized then Some(Unmaterialized)
                       else Outcome(RepairStep(policy, old(state), current))
    {
      hide ValidState, RepairStep;
      if !state.materialized {
        return Some(Unmaterialized);
      }
      var next := RepairCallback(policy, state, current);
      error := StoreState(next);
    }

    method Checkout(branch: string, create: bool, current: RefReply, created: bool, target: RefReply)
      returns (error: Option<Error>)
      requires ValidState(state)
      modifies this`state
      ensures ValidState(state)
      ensures state == Next(policy, old(state), DoCheckout(branch, create, current, created, target))
      ensures error == Outcome(CheckoutStep(policy, old(state), branch, create, current, created, target))
    {
      hide ValidState, CheckoutStep;
      var next := CheckoutCallback(policy, state, branch, create, current, created, target);
      error := StoreState(next);
    }

    method ResetHard(target: Option<Committed>) returns (error: Option<Error>)
      requires ValidState(state)
      modifies this`state
      ensures ValidState(state) && state == Next(policy, old(state), DoReset(target))
      ensures error == Outcome(ResetStep(policy, old(state), target))
    {
      hide ValidState, ResetStep;
      var next := ResetCallback(policy, state, target);
      error := StoreState(next);
    }

    method Commit(message: string, reply: CommitReply) returns (result: CommitResult, error: Option<Error>)
      requires ValidState(state)
      modifies this`state
      ensures ValidState(state) && state == Next(policy, old(state), DoCommit(message, reply))
      ensures (result, error) == CommitAnswer(CommitStep(policy, old(state), message, reply))
    {
      hide ValidState, CommitStep;
      var o := CommitCallback(policy, state, message, reply);
      var valid := ValidateState(o.state);
      if valid {
        state := o.state;
        return o.result, o.error;
      }
      if o.result.committed {
        return o.result.(recoveryRequired := true), Some(RecoveryRequired);
      }
      return o.result, Some(Rejected);
    }

    method SetAutoApplyDefault(enabled: bool) returns (error: Option<Error>)
      requires ValidState(state)
      modifies this`state
      ensures ValidState(state) && state == Next(policy, old(state), DoSetAutoApply(enabled))
      ensures error == if old(state).materialized then None else Some(Unmaterialized)
    {
      hide ValidState;
      if !state.materialized {
        return Some(Unmaterialized);
      }
      AutoApplyStaysValid(state, enabled);
      error := StoreState(Ok(state.(autoApplyDefault := enabled)));
    }
  }

  lemma AutoApplyStaysValid(s: State, enabled: bool)
    requires ValidState(s)
    ensures ValidState(s.(autoApplyDefault := enabled))
  {
  }
}
