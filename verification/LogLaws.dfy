/** What holds of every log the three writers can produce. */
module LogLaws {
  import opened Prelude
  import opened Events
  import opened Folding
  import opened Validator
  import opened Services
  import opened Review
  import opened Dispatch
  import opened Protocol

  // ---------------------------------------------------------------- statuses

  /** The steps a request may take between statuses, and the kind of event that takes each. */
  predicate Edge(from: Status, kind: Payload, to: Status) {
    match kind
    case FieldOverwritten(_, _, _) => from == to && Reviewable(from)
    case Validated => Reviewable(from) && to.VALIDATED?
    case CpiDispatched(_, _) => (from.VALIDATED? || from.CPI_PENDING?) && to.CPI_PENDING?
    case CpiSucceeded(_, _) => from.CPI_PENDING? && to.CPI_DONE?
    case CpiFailed(_, _, terminal) => from.CPI_PENDING? && (if terminal then to.CPI_FAILED? else to.CPI_PENDING?)
    case _ => false
  }

  /** Statuses move only along the documented steps. */
  lemma StatusesFollowEdges(cfg: Config, log: seq<Event>, k: nat)
    requires ConfigOk(cfg) && GoodLog(cfg, log) && 1 <= k < |log|
    ensures WellFormed(log[..k]) && WellFormed(log[..k + 1])
    ensures Edge(StateOf(log[..k]).status, log[k].payload, StateOf(log[..k + 1]).status)
  {
    hide LegalNext, Edge, StateOf, Apply, StatusFacts;
    GoodPrefix(cfg, log, k);
    GoodPrefix(cfg, log, k + 1);
    StatusFactsHold(cfg, log[..k]);
    StateAfter(log, k);
    EdgeStep(cfg, log[..k], log[k], Apply(StateOf(log[..k]), log[k]));
  }

  lemma StateAfter(log: seq<Event>, k: nat)
    requires 1 <= k < |log| && WellFormed(log[..k]) && WellFormed(log[..k + 1])
    ensures StateOf(log[..k + 1]) == Apply(StateOf(log[..k]), log[k])
  {
    hide Apply;
    assert log[..k + 1][..k] == log[..k];
  }

  lemma LastEdge(cfg: Config, log: seq<Event>)
    requires ConfigOk(cfg) && GoodLog(cfg, log) && |log| > 1
    ensures var init, e := log[..|log| - 1], log[|log| - 1];
            && GoodLog(cfg, init) && StateOf(log) == Apply(StateOf(init), e)
            && Edge(StateOf(init).status, e.payload, StateOf(log).status)
  {
    hide LegalNext, Apply, Edge;
    StatusesFollowEdges(cfg, log, |log| - 1);
    assert log[..|log|] == log;
    Unfold(cfg, log);
  }

  lemma EdgeStep(cfg: Config, log: seq<Event>, e: Event, after: Submission)
    requires cfg.spec.Loaded() && WellFormed(log) && StatusFacts(cfg, log) && LegalNext(cfg, log, e)
    requires after == Apply(StateOf(log), e)
    ensures Edge(StateOf(log).status, e.payload, after.status)
  {
    hide StateOf, WellFormed, Stands, Correctable, Passes, IdempotencyKey, OptionsFor, SetOrClear;
  }

  const IS_LIFECYCLE := (e: Event) =>
    e.payload.Submitted? || e.payload.Validated? || e.payload.CpiDispatched? || e.payload.CpiSucceeded? || e.payload.CpiFailed?

  /** The status that the data contract derives from the latest lifecycle event. */
  function ContractStatus(log: seq<Event>): Status {
    match Latest(log, IS_LIFECYCLE)
    case None => SUBMITTED
    case Some(e) =>
      match e.payload
      case Validated => VALIDATED
      case CpiDispatched(_, _) => CPI_PENDING
      case CpiSucceeded(_, _) => CPI_DONE
      case CpiFailed(_, _, terminal) => if terminal then CPI_FAILED else CPI_PENDING
      case _ => SUBMITTED
  }

  /** The fold agrees with the data contract on every log that can arise. */
  lemma {:induction false} FoldMeetsContract(cfg: Config, log: seq<Event>)
    requires ConfigOk(cfg) && GoodLog(cfg, log)
    ensures StateOf(log).status == ContractStatus(log)
  {
    hide StateOf, LegalNext, Apply;
    if |log| > 1 {
      FoldMeetsContract(cfg, log[..|log| - 1]);
      LastEdge(cfg, log);
    } else {
      assert log[..0] == [];
      assert StateOf(log).status == SUBMITTED by { FoldedStatus(log); }
    }
  }

  /** Off those logs it need not: a failure without a claim, say, leaves the folded status as it was. */
  lemma FoldAndContractDiffer(first: Event, failure: Event)
    requires first.payload.Submitted? && failure.payload.CpiFailed? && !failure.payload.terminal
    requires WellFormed([first, failure])
    ensures StateOf([first, failure]).status == SUBMITTED && ContractStatus([first, failure]) == CPI_PENDING
  {
    assert [first, failure][..1] == [first];
  }

  // ------------------------------------------------------ claims and results

  /** Every result stands right after the claim of its own attempt. */
  lemma ResultsFollowClaims(cfg: Config, log: seq<Event>, i: nat)
    requires cfg.spec.Loaded() && GoodLog(cfg, log) && i < |log| && (log[i].payload.CpiSucceeded? || log[i].payload.CpiFailed?)
    ensures i >= 2 && log[i - 1].payload.CpiDispatched? && log[i - 1].payload.attempt == log[i].payload.attempt
    ensures log[i].payload.CpiFailed? && !log[i].payload.terminal ==> log[i].payload.attempt < cfg.maxAttempts
  {
    GoodPrefix(cfg, log, i);
  }

  /** Nothing the writers do extends a log whose request is done. */
  lemma DoneIsFinal(cfg: Config, log: seq<Event>, e: Event)
    requires ConfigOk(cfg) && GoodLog(cfg, log) && StateOf(log).status.CPI_DONE?
    ensures !LegalNext(cfg, log, e)
  {
    hide StateOf, Stands, Correctable, Passes, IdempotencyKey, OptionsFor;
    StatusFactsHold(cfg, log);
  }

  /** There is at most one success, and it is the last event. */
  lemma SuccessIsLast(cfg: Config, log: seq<Event>, i: nat)
    requires ConfigOk(cfg) && GoodLog(cfg, log) && i < |log| && log[i].payload.CpiSucceeded?
    ensures i == |log| - 1
  {
    hide StateOf, LegalNext, Apply;
    if i < |log| - 1 {
      GoodPrefix(cfg, log, i + 1);
      StatusesFollowEdges(cfg, log, i);
      DoneIsFinal(cfg, log[..i + 1], log[i + 1]);
    }
  }

  /** The k-th claim since the latest validation is attempt k, at most the limit, under that validation's key. */
  lemma AttemptsAreNumbered(cfg: Config, log: seq<Event>, i: nat)
    requires ConfigOk(cfg) && GoodLog(cfg, log) && i < |log| && log[i].payload.CpiDispatched?
    ensures log[i].payload.attempt == CountSince(log[..i], IS_DISPATCHED, IS_VALIDATED) + 1 <= cfg.maxAttempts
    ensures i >= 2 && WellFormed(log[..i])
    ensures match Latest(log[..i], IS_VALIDATED)
            case None => false
            case Some(e) => log[i].payload.idempotencyKey == KeyText(log[0].submissionId, e.seqNo)
  {
    GoodPrefix(cfg, log, i);
    assert i > 0;
    ClaimState(cfg, log[..i], log[i]);
    FoldedAttempts(log[..i]);
    FoldedValidation(log[..i]);
    KeyOfLog(log[..i]);
  }

  lemma ClaimState(cfg: Config, log: seq<Event>, e: Event)
    requires ConfigOk(cfg) && GoodLog(cfg, log) && LegalNext(cfg, log, e) && e.payload.CpiDispatched?
    ensures StateOf(log).validatedSeq.Some? && |log| > 1
    ensures IdempotencyKey(StateOf(log)) == Some(e.payload.idempotencyKey)
    ensures e.payload.attempt == StateOf(log).cpiAttempts + 1 && 1 <= e.payload.attempt <= cfg.maxAttempts
    ensures StateOf(log).status.VALIDATED? || StateOf(log).status.CPI_PENDING?
  {
    hide StateOf, KeyText;
    StatusFactsHold(cfg, log);
    ValidatedWhenReleased(cfg, log);
    ValidationPosition(log);
  }

  /** Later claims under the same validation have higher attempt numbers. */
  lemma AttemptsGrow(cfg: Config, log: seq<Event>, i: nat, j: nat)
    requires ConfigOk(cfg) && GoodLog(cfg, log) && 1 <= i < j < |log|
    requires log[i].payload.CpiDispatched? && log[j].payload.CpiDispatched?
    requires log[i].payload.idempotencyKey == log[j].payload.idempotencyKey
    ensures log[i].payload.attempt < log[j].payload.attempt
  {
    hide KeyText, StateOf, Apply;
    GoodPrefix(cfg, log, i);
    GoodPrefix(cfg, log, i + 1);
    GoodPrefix(cfg, log, j);
    ClaimState(cfg, log[..i], log[i]);
    ClaimState(cfg, log[..j], log[j]);
    KeyOfLog(log[..i]);
    KeyOfLog(log[..j]);
    KeysDistinct(
      log[0].submissionId, StateOf(log[..i]).validatedSeq.value, log[0].submissionId, StateOf(log[..j]).validatedSeq.value);
    AfterClaim(log, i);
    CounterGrows(log, i + 1, j);
  }

  lemma AfterClaim(log: seq<Event>, i: nat)
    requires WellFormed(log) && 1 <= i < |log| && log[i].payload.CpiDispatched?
    ensures WellFormed(log[..i]) && WellFormed(log[..i + 1])
    ensures StateOf(log[..i + 1]).cpiAttempts == StateOf(log[..i]).cpiAttempts + 1
    ensures StateOf(log[..i + 1]).validatedSeq == StateOf(log[..i]).validatedSeq
  {
    assert log[..i + 1][..i] == log[..i];
  }

  /** While the validation stays the same, the counter never falls. */
  lemma {:induction false} CounterGrows(log: seq<Event>, i: nat, j: nat)
    requires WellFormed(log) && 1 <= i <= j <= |log|
    requires WellFormed(log[..i]) && WellFormed(log[..j])
    requires StateOf(log[..i]).validatedSeq == StateOf(log[..j]).validatedSeq
    ensures StateOf(log[..i]).cpiAttempts <= StateOf(log[..j]).cpiAttempts
    decreases j
  {
    hide StateOf, WellFormed;
    if i < j {
      WellFormedPrefix(log, j - 1);
      OneLater(log, j - 1);
      ValidationPosition(log[..i]);
      CounterGrows(log, i, j - 1);
    }
  }

  lemma OneLater(log: seq<Event>, k: nat)
    requires WellFormed(log) && 1 <= k < |log| && WellFormed(log[..k]) && WellFormed(log[..k + 1])
    ensures var before, after := StateOf(log[..k]), StateOf(log[..k + 1]);
            if log[k].payload.Validated? then after.validatedSeq == Some(k + 1)
            else after.validatedSeq == before.validatedSeq && after.cpiAttempts >= before.cpiAttempts
  {
    assert log[..k + 1][..k] == log[..k];
  }

  /** From its validation until it fails for good, a request keeps the values it was validated with. */
  lemma {:induction false} ValuesSinceValidation(cfg: Config, log: seq<Event>)
    requires ConfigOk(cfg) && GoodLog(cfg, log)
    requires StateOf(log).status.VALIDATED? || StateOf(log).status.CPI_PENDING? || StateOf(log).status.CPI_DONE?
    ensures match StateOf(log).validatedSeq
            case None => false
            case Some(v) => 1 < v <= |log| && WellFormed(log[..v]) && StateOf(log).values == StateOf(log[..v]).values
  {
    hide StateOf;
    ValidatedWhenReleased(cfg, log);
    ValidationPosition(log);
    var v := StateOf(log).validatedSeq.value;
    WellFormedPrefix(log, v);
    LastEdge(cfg, log);
    if log[|log| - 1].payload.Validated? {
      FoldedPosition(log);
      assert log[..v] == log;
    } else {
      ValuesSinceValidation(cfg, log[..|log| - 1]);
      assert log[..|log| - 1][..v] == log[..v];
    }
  }

  // ------------------------------------------------------------- audit trail

  lemma PriorsAreFaithful(cfg: Config, log: seq<Event>)
    requires cfg.spec.Loaded() && GoodLog(cfg, log)
    ensures PriorsFaithful(log)
  {
    forall k | 1 <= k < |log| && log[k].payload.FieldOverwritten?
      ensures WellFormed(log[..k]) && log[k].payload.prior == Lookup(StateOf(log[..k]).values, log[k].payload.field)
    {
      GoodPrefix(cfg, log, k);
    }
  }

  /** The audit trail leads from what the customer submitted to the current values, and back. */
  lemma AuditTrailIsReversible(cfg: Config, log: seq<Event>)
    requires cfg.spec.Loaded() && GoodLog(cfg, log)
    ensures var sub := StateOf(log);
            && sub.originalValues == log[0].payload.values
            && Redo(sub.originalValues, sub.overwrites) == sub.values
            && Undo(sub.values, sub.overwrites) == sub.originalValues
  {
    hide StateOf, Undo, Redo;
    PriorsAreFaithful(cfg, log);
    FoldedProvenance(log);
    RedoGivesCurrent(log);
    UndoGivesOriginal(log);
  }

  // -------------------------------------------------------------- releasing

  function AccountValue(cfg: Config, values: Values): Option<Value> {
    match cfg.spec.AccountField()
    case None => None
    case Some(f) => Lookup(values, f.name)
  }

  /** If what the customer submitted can be released, so can the current values; the owning account never changes. */
  lemma {:induction false} StaysReleasable(cfg: Config, log: seq<Event>)
    requires ConfigOk(cfg) && GoodLog(cfg, log) && Releasable(cfg, log[0].accountId, log[0].payload.values)
    ensures Releasable(cfg, log[0].accountId, StateOf(log).values)
    ensures AccountValue(cfg, StateOf(log).values) == AccountValue(cfg, log[0].payload.values)
  {
    if |log| > 1 {
      Unfold(cfg, log);
      StaysReleasable(cfg, log[..|log| - 1]);
      ReleasableStep(cfg, log[..|log| - 1], log[|log| - 1]);
    }
  }

  lemma ReleasableStep(cfg: Config, log: seq<Event>, e: Event)
    requires ConfigOk(cfg) && WellFormed(log) && LegalNext(cfg, log, e) && Releasable(cfg, log[0].accountId, StateOf(log).values)
    ensures Releasable(cfg, log[0].accountId, Apply(StateOf(log), e).values)
    ensures AccountValue(cfg, Apply(StateOf(log), e).values) == AccountValue(cfg, StateOf(log).values)
  {
    hide StateOf, Stands, Passes, OptionsFor, AllStand;
    if e.payload.FieldOverwritten? {
      StandsAfterOverwrite(
        cfg, StateOf(log).values, OptionsFor(cfg, SYSTEM, log[0].accountId), cfg.spec.Field(e.payload.field), e.payload.newValue);
    }
  }

  /** Releasable values are released: an up-to-date `validate` by the internal team succeeds. */
  lemma ReleaseSucceeds(cfg: Config, p: Principal, log: seq<Event>, at: Time)
    requires ConfigOk(cfg) && GoodLog(cfg, log) && p.IsInternal() && Reviewable(StateOf(log).status)
    requires Releasable(cfg, log[0].accountId, StateOf(log).values)
    ensures Decide(cfg, p, log, |log|, Release, at).Ok?
  {
    hide StateOf, OptionsFor, CheckForm, AllStand, RawValues, Decide;
    FoldedProvenance(log);
    ReleasableIff(cfg, p, log[0].accountId, StateOf(log).values);
    DecidesIff(cfg, p, log, |log|, Release, at);
  }

  // ------------------------------------------------------- released requests

  /** Only the dispatch job appends to a released request. */
  lemma ReleasedIsForTheJob(cfg: Config, log: seq<Event>, e: Event)
    requires ConfigOk(cfg) && GoodLog(cfg, log) && Released(log) && LegalNext(cfg, log, e)
    ensures e.actorRole.System?
  {
    hide StateOf, Stands, Passes;
  }

  /** The last attempt was claimed and not reported. */
  predicate LostLastClaim(cfg: Config, log: seq<Event>)
    requires WellFormed(log)
  {
    log[|log| - 1].payload.CpiDispatched? && StateOf(log).cpiAttempts == cfg.maxAttempts
  }

  /** A released request is never work exactly when its last attempt was claimed and not reported. */
  lemma NeverWorkIff(cfg: Config, log: seq<Event>, window: int)
    requires ConfigOk(cfg) && GoodLog(cfg, log) && Released(log)
    ensures LostLastClaim(cfg, log) <==> forall staleAfter, now :: !IsWork(StateOf(log), cfg.maxAttempts, staleAfter, now)
    ensures !LostLastClaim(cfg, log) ==> IsWork(StateOf(log), cfg.maxAttempts, window, StateOf(log).lastEventAt + window + 1)
  {
    hide StateOf;
    StatusFactsHold(cfg, log);
    var sub := StateOf(log);
    if LostLastClaim(cfg, log) {
      assert sub.status.CPI_PENDING? && sub.cpiAttempts == cfg.maxAttempts;
    } else {
      WorkAt(cfg, log, window, sub.lastEventAt + window + 1);
    }
  }

  /** A claimable request is work once its last event is stale. */
  lemma WorkAt(cfg: Config, log: seq<Event>, staleAfter: int, now: Time)
    requires WellFormed(log) && Claimable(StateOf(log), cfg.maxAttempts) && StateOf(log).lastEventAt < now - staleAfter
    ensures IsWork(StateOf(log), cfg.maxAttempts, staleAfter, now)
  {
    hide StateOf;
  }

  lemma LostIsPending(cfg: Config, log: seq<Event>)
    requires WellFormed(log) && LostLastClaim(cfg, log)
    ensures StateOf(log).status.CPI_PENDING? && Released(log)
    ensures forall staleAfter, now :: !IsWork(StateOf(log), cfg.maxAttempts, staleAfter, now)
  {
  }

  /** Review refuses a released request. */
  lemma ReviewRefusesReleased(
      cfg: Config, p: Principal, log: seq<Event>, expected: int, cmd: Command, at: Time)
    requires cfg.spec.Loaded() && WellFormed(log) && Released(log)
    ensures Decide(cfg, p, log, expected, cmd, at).Err?
  {
    hide StateOf, Decide, Permitted;
    DecidesIff(cfg, p, log, expected, cmd, at);
  }

  // -------------------------------------------------------- the stale window

  /** A failure was recorded after position `v`. */
  predicate FailedSince(log: seq<Event>, v: int) {
    exists i :: 0 <= i && v <= i < |log| && log[i].payload.CpiFailed?
  }

  lemma FailedSinceOneMore(log: seq<Event>, v: int)
    requires |log| > 0 && v < |log|
    ensures FailedSince(log, v) <==> FailedSince(log[..|log| - 1], v) || log[|log| - 1].payload.CpiFailed?
  {
    var init := log[..|log| - 1];
    forall i | 0 <= i < |init|
      ensures init[i] == log[i]
    {
    }
    if FailedSince(init, v) {
      var i :| 0 <= i && v <= i < |init| && init[i].payload.CpiFailed?;
      assert log[i].payload.CpiFailed?;
    }
    if FailedSince(log, v) && !log[|log| - 1].payload.CpiFailed? {
      var i :| 0 <= i && v <= i < |log| && log[i].payload.CpiFailed?;
      assert init[i].payload.CpiFailed?;
    }
  }

  /** While a request is released, its error is set exactly when an attempt has failed since the validation. */
  lemma {:induction false} ErrorSinceValidation(cfg: Config, log: seq<Event>)
    requires ConfigOk(cfg) && GoodLog(cfg, log) && (StateOf(log).status.VALIDATED? || StateOf(log).status.CPI_PENDING?)
    ensures match StateOf(log).validatedSeq
            case None => false
            case Some(v) => StateOf(log).cpiError.Some? <==> FailedSince(log, v)
  {
    hide StateOf, LegalNext;
    ValidatedWhenReleased(cfg, log);
    ValidationPosition(log);
    var v := StateOf(log).validatedSeq.value;
    FoldedPosition(log);
    LastEdge(cfg, log);
    if !log[|log| - 1].payload.Validated? {
      ErrorSinceValidation(cfg, log[..|log| - 1]);
      ValidationPosition(log[..|log| - 1]);
      FailedSinceOneMore(log, v);
    }
  }

  /**
   Within the stale window a claim is left alone only if no attempt has failed since the validation: claiming does not clear
   the error, so a retry in flight is picked up at once while attempts remain.
   */
  lemma WindowProtectsIff(cfg: Config, log: seq<Event>, staleAfter: int, now: Time)
    requires ConfigOk(cfg) && GoodLog(cfg, log) && log[|log| - 1].payload.CpiDispatched?
    requires now - staleAfter <= log[|log| - 1].occurredAt
    ensures StateOf(log).validatedSeq.Some?
    ensures IsWork(StateOf(log), cfg.maxAttempts, staleAfter, now) <==>
            StateOf(log).cpiAttempts < cfg.maxAttempts && FailedSince(log, StateOf(log).validatedSeq.value)
  {
    hide LegalNext, FailedSince;
    FoldedPosition(log);
    assert StateOf(log).status.CPI_PENDING?;
    hide StateOf;
    ErrorSinceValidation(cfg, log);
  }
}
