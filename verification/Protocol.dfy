/** What the writers' guards let follow a log, and the logs that can arise. */
module Protocol {
  import opened Prelude
  import opened Events
  import opened Folding
  import opened Validator
  import opened Services
  import opened Review
  import opened Dispatch

  /** The values pass validation under the internal team's options. */
  predicate Passes(cfg: Config, account: string, values: Values)
    requires cfg.spec.Loaded()
  {
    CheckForm(cfg.lib, cfg.spec, RawValues(values), OptionsFor(cfg, SYSTEM, account)).Ok()
  }

  /** A dispatch may be claimed. */
  predicate Claimable(sub: Submission, maxAttempts: int) {
    sub.status.VALIDATED? || (sub.status.CPI_PENDING? && sub.cpiAttempts < maxAttempts)
  }

  /** The log ends in the claim of this attempt. */
  predicate EndsInClaim(log: seq<Event>, attempt: int)
    requires |log| > 0
  {
    log[|log| - 1].payload.CpiDispatched? && log[|log| - 1].payload.attempt == attempt
  }

  predicate MayOverwrite(cfg: Config, log: seq<Event>, field: string, prior: Option<Value>, newValue: Option<Value>)
    requires cfg.spec.Loaded() && WellFormed(log)
  {
    && Reviewable(StateOf(log).status) && Correctable(cfg.spec, field)
    && prior == Lookup(StateOf(log).values, field)
    && Stands(cfg.lib, cfg.spec.Field(field), newValue, OptionsAt(OptionsFor(cfg, SYSTEM, log[0].accountId), field))
  }

  predicate MayClaim(cfg: Config, log: seq<Event>, key: string, attempt: int)
    requires WellFormed(log)
  {
    && Claimable(StateOf(log), cfg.maxAttempts)
    && IdempotencyKey(StateOf(log)) == Some(key) && attempt == StateOf(log).cpiAttempts + 1
  }

  /** `e` is an event that one of the writers appends to `log`. */
  predicate LegalNext(cfg: Config, log: seq<Event>, e: Event)
    requires cfg.spec.Loaded() && WellFormed(log)
  {
    && Continues(log, e)
    && match e.payload
       case FieldOverwritten(field, prior, newValue) => e.actorRole.Internal? && MayOverwrite(cfg, log, field, prior, newValue)
       case Validated => e.actorRole.Internal? && Reviewable(StateOf(log).status) && Passes(cfg, log[0].accountId, StateOf(log).values)
       case CpiDispatched(key, attempt) => e.actorRole.System? && MayClaim(cfg, log, key, attempt)
       case CpiSucceeded(_, attempt) => e.actorRole.System? && EndsInClaim(log, attempt)
       case CpiFailed(_, attempt, terminal) =>
         e.actorRole.System? && EndsInClaim(log, attempt) && (terminal || attempt < cfg.maxAttempts)
       case _ => false
  }

  /** Every event of the log was legal on the log before it. */
  predicate GoodLog(cfg: Config, log: seq<Event>)
    requires cfg.spec.Loaded()
  {
    && WellFormed(log)
    && (|log| > 1 ==>
          var init := log[..|log| - 1];
          GoodLog(cfg, init) && LegalNext(cfg, init, log[|log| - 1]))
  }

  lemma {:induction false} GoodPrefix(cfg: Config, log: seq<Event>, n: nat)
    requires cfg.spec.Loaded() && GoodLog(cfg, log) && 1 <= n <= |log|
    ensures GoodLog(cfg, log[..n])
    ensures n < |log| ==> LegalNext(cfg, log[..n], log[n])
  {
    hide LegalNext;
    if n == |log| {
      assert log[..n] == log;
    } else if n < |log| - 1 {
      var init := log[..|log| - 1];
      GoodPrefix(cfg, init, n);
      assert init[..n] == log[..n] && init[n] == log[n];
    }
  }

  lemma GoodExtend(cfg: Config, log: seq<Event>, e: Event)
    requires cfg.spec.Loaded() && GoodLog(cfg, log)
    ensures GoodLog(cfg, log + [e]) <==> LegalNext(cfg, log, e)
  {
    assert (log + [e])[..|log|] == log;
    WellFormedExtend(log, e);
  }

  /** The request is with the dispatch job. */
  predicate Released(log: seq<Event>)
    requires WellFormed(log)
  {
    StateOf(log).status.VALIDATED? || StateOf(log).status.CPI_PENDING?
  }

  // ------------------------------------------------------ the state of a good log

  /** What the status says of the end of the log and of the counters. */
  predicate StatusFacts(cfg: Config, log: seq<Event>)
    requires WellFormed(log)
  {
    var sub, last := StateOf(log), log[|log| - 1].payload;
    && 0 <= sub.cpiAttempts <= cfg.maxAttempts
    && match sub.status
       case SUBMITTED => sub.cpiAttempts == 0 && (last.Submitted? || last.FieldOverwritten?)
       case VALIDATED => sub.cpiAttempts == 0 && sub.cpiError.None? && last.Validated?
       case CPI_PENDING =>
         && sub.cpiAttempts >= 1
         && (EndsInClaim(log, sub.cpiAttempts)
             || (last.CpiFailed? && !last.terminal && sub.cpiError.Some? && sub.cpiAttempts < cfg.maxAttempts))
       case CPI_DONE => last.CpiSucceeded?
       case CPI_FAILED => (last.CpiFailed? && last.terminal) || last.FieldOverwritten?
  }

  lemma StatusFactsStep(cfg: Config, log: seq<Event>)
    requires ConfigOk(cfg) && |log| > 1 && WellFormed(log) && WellFormed(log[..|log| - 1])
    requires var init, e := log[..|log| - 1], log[|log| - 1];
             StatusFacts(cfg, init) && LegalNext(cfg, init, e) && StateOf(log) == Apply(StateOf(init), e)
    ensures StatusFacts(cfg, log)
  {
    hide StateOf, Stands, Correctable, Passes, IdempotencyKey, OptionsFor, SetOrClear, WellFormed, Continues;
    match log[|log| - 1].payload {
      case Submitted(_, _) =>
      case AttachmentAdded(_) =>
      case FieldOverwritten(_, _, _) =>
      case Validated =>
      case CpiDispatched(_, _) =>
      case CpiSucceeded(_, _) =>
      case CpiFailed(_, _, _) =>
      case CreditNoteRecorded(_, _) =>
    }
  }

  lemma {:induction false} StatusFactsHold(cfg: Config, log: seq<Event>)
    requires ConfigOk(cfg) && GoodLog(cfg, log)
    ensures StatusFacts(cfg, log)
  {
    if |log| > 1 {
      Unfold(cfg, log);
      StatusFactsHold(cfg, log[..|log| - 1]);
      StatusFactsStep(cfg, log);
    }
  }

  /** There is a validation exactly when the request has left SUBMITTED. */
  lemma {:induction false} ValidatedWhenReleased(cfg: Config, log: seq<Event>)
    requires ConfigOk(cfg) && GoodLog(cfg, log)
    ensures StateOf(log).validatedSeq.None? <==> StateOf(log).status.SUBMITTED?
  {
    if |log| > 1 {
      Unfold(cfg, log);
      ValidatedWhenReleased(cfg, log[..|log| - 1]);
      StatusFactsHold(cfg, log[..|log| - 1]);
      ValidatedStep(cfg, log);
    }
  }

  lemma {:induction false} ValidatedStep(cfg: Config, log: seq<Event>)
    requires ConfigOk(cfg) && |log| > 1 && WellFormed(log) && WellFormed(log[..|log| - 1])
    requires var init, e := log[..|log| - 1], log[|log| - 1];
             && StatusFacts(cfg, init) && LegalNext(cfg, init, e) && StateOf(log) == Apply(StateOf(init), e)
             && (StateOf(init).validatedSeq.None? <==> StateOf(init).status.SUBMITTED?)
    ensures StateOf(log).validatedSeq.None? <==> StateOf(log).status.SUBMITTED?
  {
    hide StateOf, Stands, Correctable, Passes, OptionsFor, SetOrClear, WellFormed;
  }

  lemma Unfold(cfg: Config, log: seq<Event>)
    requires cfg.spec.Loaded() && GoodLog(cfg, log) && |log| > 1
    ensures var init, e := log[..|log| - 1], log[|log| - 1];
            && GoodLog(cfg, init) && LegalNext(cfg, init, e) && WellFormed(init) && WellFormed(log)
            && StateOf(log) == Apply(StateOf(init), e) && init[0] == log[0]
  {
    hide LegalNext, Apply;
  }

  /** A validation is recorded under the position of its event. */
  lemma {:induction false} ValidationPosition(log: seq<Event>)
    requires WellFormed(log)
    ensures match StateOf(log).validatedSeq
            case None => true
            case Some(v) => 1 < v <= |log| && log[v - 1].payload.Validated?
  {
    if |log| > 1 {
      ValidationPosition(log[..|log| - 1]);
    }
  }

  /** The key names the submission and the latest validation. */
  lemma KeyOfLog(log: seq<Event>)
    requires WellFormed(log)
    ensures match StateOf(log).validatedSeq
            case None => IdempotencyKey(StateOf(log)).None?
            case Some(v) => v >= 0 && IdempotencyKey(StateOf(log)) == Some(KeyText(log[0].submissionId, v))
  {
    hide KeyText, Apply;
    ValidationPosition(log);
    FoldedProvenance(log);
  }

  // ------------------------------------------------------------ the three writers

  /** Review appends only legal events. */
  lemma DecidedIsLegal(cfg: Config, p: Principal, log: seq<Event>, expected: int, cmd: Command, at: Time)
    requires ConfigOk(cfg) && WellFormed(log) && Decide(cfg, p, log, expected, cmd, at).Ok?
    ensures LegalNext(cfg, log, Decide(cfg, p, log, expected, cmd, at).value)
  {
    hide ValidateField, CheckForm, Stands, OptionsFor, RawValues;
    FoldedProvenance(log);
    UnscopedOptions(cfg, p, log[0].accountId);
    match cmd {
      case Release =>
      case Overwrite(field, raw) =>
        OverwriteMeaning(cfg, p, log, expected, field, raw, at);
        var e := Decide(cfg, p, log, expected, cmd, at).value;
        AcceptedStands(
          cfg, cfg.spec.Field(field), raw, OptionsAt(OptionsFor(cfg, SYSTEM, log[0].accountId), field), e.payload.newValue);
    }
  }

  /** Whatever the dispatch job picks has a key, and claiming it is legal. */
  lemma ClaimIsLegal(cfg: Config, log: seq<Event>, at: Time)
    requires ConfigOk(cfg) && GoodLog(cfg, log) && Claimable(StateOf(log), cfg.maxAttempts)
    ensures IdempotencyKey(StateOf(log)).Some? && StateOf(log).seqNo == |log|
    ensures LegalNext(cfg, log, Claim(StateOf(log), IdempotencyKey(StateOf(log)).value, at))
  {
    hide KeyText, StateOf;
    ValidatedWhenReleased(cfg, log);
    KeyOfLog(log);
    FoldedPosition(log);
    FoldedProvenance(log);
  }

  /** Reporting what CPI answered is legal right after the claim. */
  lemma {:induction false} ReportIsLegal(cfg: Config, log: seq<Event>, key: string, answer: Answer, claimAt: Time, at: Time)
    requires cfg.spec.Loaded() && WellFormed(log) && StateOf(log).seqNo == |log|
    ensures var sub := StateOf(log);
            var claim, report := Claim(sub, key, claimAt), Report(sub, answer, cfg.maxAttempts, at);
            WellFormed(log + [claim]) && (report.Some? ==> LegalNext(cfg, log + [claim], report.value))
  {
    hide StateOf;
    FoldedProvenance(log);
    WellFormedExtend(log, Claim(StateOf(log), key, claimAt));
  }
}
