/** The CPI dispatch job: validated requests become return orders. */
module Dispatch {
  import opened Prelude
  import opened Numerals
  import opened Events
  import opened Folding
  import opened Repository
  import opened Listing
  import opened Repositories

  /** `<submission_id>:<validated_seq>`. */
  function KeyText(sid: string, validatedSeq: nat): string {
    sid + [':'] + Digits(validatedSeq)
  }

  /** None stands for the ValueError on a submission that was never validated. */
  function IdempotencyKey(sub: Submission): Option<string> {
    if sub.validatedSeq.Some? && sub.validatedSeq.value >= 0 then Some(KeyText(sub.submissionId, sub.validatedSeq.value)) else None
  }

  /** Distinct validations, of one submission or of two, have distinct keys. */
  lemma KeysDistinct(a: string, m: nat, b: string, n: nat)
    requires KeyText(a, m) == KeyText(b, n)
    ensures a == b && m == n
  {
    NumberedNameInjective(a, m, b, n, ':');
  }

  /** All values plus identifiers; a value named like an identifier replaces it. */
  function BuildPayload(sub: Submission, key: string): Values {
    map["submission_id" := Text(sub.submissionId), "account_id" := Text(sub.accountId), "idempotency_key" := Text(key)] + sub.values
  }

  const IDENTIFIERS: set<string> := {"submission_id", "account_id", "idempotency_key"}

  /** The payload has the values that hold on `log`, and the identifiers under names that no field has. */
  ghost predicate Sends(payload: Values, key: string, log: seq<Event>)
    requires WellFormed(log)
  {
    && (forall name :: name in payload <==> name in IDENTIFIERS || ValueAt(log, name).Some?)
    && (forall name <- payload :: ValueAt(log, name).Some? ==> payload[name] == ValueAt(log, name).value)
    && (ValueAt(log, "submission_id").None? ==> payload["submission_id"] == Text(log[0].submissionId))
    && (ValueAt(log, "account_id").None? ==> payload["account_id"] == Text(log[0].accountId))
    && (ValueAt(log, "idempotency_key").None? ==> payload["idempotency_key"] == Text(key))
  }

  lemma PayloadSends(log: seq<Event>, key: string)
    requires WellFormed(log)
    ensures Sends(BuildPayload(StateOf(log), key), key, log)
  {
    hide StateOf, ValueAt, WellFormed;
    FoldedProvenance(log);
    forall name
      ensures Lookup(StateOf(log).values, name) == ValueAt(log, name)
    {
      FoldedValues(log, name);
    }
  }

  /** That leaves one payload. */
  lemma SendsOne(a: Values, b: Values, key: string, log: seq<Event>)
    requires WellFormed(log) && Sends(a, key, log) && Sends(b, key, log)
    ensures a == b
  {
    hide ValueAt, WellFormed;
    forall name
      ensures name in a <==> name in b
    {
    }
  }

  /** A pending submission that a run takes up: it has attempts left and its last attempt failed or is stale. */
  predicate Retryable(sub: Submission, maxAttempts: int, staleAfter: int, now: Time) {
    sub.cpiAttempts < maxAttempts && (sub.cpiError.Some? || sub.lastEventAt < now - staleAfter)
  }

  /** What `pending_work` picks. */
  predicate IsWork(sub: Submission, maxAttempts: int, staleAfter: int, now: Time) {
    sub.status.VALIDATED? || (sub.status.CPI_PENDING? && Retryable(sub, maxAttempts, staleAfter, now))
  }

  /** What comes back from CPI; `Explodes` is any exception other than the two it may raise. */
  datatype Answer = Order(reference: string) | Rejects(error: string) | Transient(error: string) | Explodes

  function Claim(sub: Submission, key: string, at: Time): Event
    requires sub.seqNo >= 0
  {
    SystemEvent(sub.submissionId, sub.accountId, sub.seqNo + 1, CpiDispatched(key, sub.cpiAttempts + 1), at)
  }

  /** The event that reports an answer; an unexpected error leaves the claim without one. */
  function Report(sub: Submission, answer: Answer, maxAttempts: int, at: Time): Option<Event>
    requires sub.seqNo >= 0
  {
    var attempt := sub.cpiAttempts + 1;
    match answer
    case Order(reference) => Some(SystemEvent(sub.submissionId, sub.accountId, sub.seqNo + 2, CpiSucceeded(reference, attempt), at))
    case Rejects(error) => Some(SystemEvent(sub.submissionId, sub.accountId, sub.seqNo + 2, CpiFailed(error, attempt, true), at))
    case Transient(error) =>
      Some(SystemEvent(sub.submissionId, sub.accountId, sub.seqNo + 2, CpiFailed(error, attempt, attempt >= maxAttempts), at))
    case Explodes => None
  }

  datatype Outcome = Succeeded | Retried | DeadLettered | Skipped | Raised

  function OutcomeOf(sub: Submission, answer: Answer, maxAttempts: int): Outcome {
    match answer
    case Order(_) => Succeeded
    case Rejects(_) => DeadLettered
    case Transient(_) => if sub.cpiAttempts + 1 >= maxAttempts then DeadLettered else Retried
    case Explodes => Raised
  }

  /** The CPI endpoint: it records the calls and answers from a script. */
  class CpiClient {
    var script: seq<Answer>
    var calls: seq<(string, Values)>

    constructor (script: seq<Answer>)
      ensures this.script == script && calls == []
    {
      this.script, calls := script, [];
    }

    method CreateReturnOrder(key: string, payload: Values) returns (answer: Answer)
      modifies this
      ensures calls == old(calls) + [(key, payload)]
      ensures old(script) == [] ==> answer == Explodes && script == []
      ensures old(script) != [] ==> answer == old(script)[0] && script == old(script)[1..]
    {
      calls := calls + [(key, payload)];
      if script == [] {
        return Explodes;
      }
      answer := script[0];
      script := script[1..];
    }
  }

  function Eligible(subs: seq<Submission>, maxAttempts: int, staleAfter: int, now: Time): seq<Submission> {
    if |subs| == 0 then []
    else
      var last := subs[|subs| - 1];
      Eligible(subs[..|subs| - 1], maxAttempts, staleAfter, now) +
      if Retryable(last, maxAttempts, staleAfter, now) then [last] else []
  }

  const WORK_LIMIT := 1000

  /** The work of one run over either store. */
  ghost function Work(b: Backend, logs: Logs, maxAttempts: int, staleAfter: int, now: Time): seq<Submission>
    requires StoreOk(logs)
  {
    ListingOf(b, logs, SYSTEM, Some(VALIDATED), WORK_LIMIT) +
    Eligible(ListingOf(b, logs, SYSTEM, Some(CPI_PENDING), WORK_LIMIT), maxAttempts, staleAfter, now)
  }

  method PendingWork(repo: SubmissionRepository, maxAttempts: int, staleAfter: int, now: Time) returns (work: seq<Submission>)
    requires repo.Valid()
    ensures work == Work(repo.Backend(), repo.Logs(), maxAttempts, staleAfter, now)
  {
    hide ListingOf, StoreOk;
    var validated := repo.ListSubmissions(SYSTEM, Some(VALIDATED), WORK_LIMIT);
    work := validated.value;
    var pending := repo.ListSubmissions(SYSTEM, Some(CPI_PENDING), WORK_LIMIT);
    for i := 0 to |pending.value|
      invariant work == validated.value + Eligible(pending.value[..i], maxAttempts, staleAfter, now)
    {
      var sub := pending.value[i];
      assert pending.value[..i + 1][..i] == pending.value[..i];
      if sub.cpiAttempts >= maxAttempts {
        continue;
      }
      var failedTransiently := sub.cpiError != None;
      var staleInFlight := sub.cpiError == None && sub.lastEventAt < now - staleAfter;
      if failedTransiently || staleInFlight {
        work := work + [sub];
      }
    }
    assert pending.value[..|pending.value|] == pending.value;
  }

  /** The log after one dispatch of its current state. */
  function Dispatched(log: seq<Event>, answer: Answer, maxAttempts: int, claimAt: Time, reportAt: Time): seq<Event>
    requires WellFormed(log) && IdempotencyKey(StateOf(log)).Some?
  {
    FoldedPosition(log);
    var sub := StateOf(log);
    var report := Report(sub, answer, maxAttempts, reportAt);
    log + [Claim(sub, IdempotencyKey(sub).value, claimAt)] + if report.Some? then [report.value] else []
  }

  lemma DispatchedWellFormed(log: seq<Event>, answer: Answer, maxAttempts: int, claimAt: Time, reportAt: Time)
    requires WellFormed(log) && IdempotencyKey(StateOf(log)).Some?
    ensures WellFormed(Dispatched(log, answer, maxAttempts, claimAt, reportAt))
    ensures Dispatched(log, answer, maxAttempts, claimAt, reportAt)[0] == log[0]
  {
    FoldedPosition(log);
    FoldedProvenance(log);
    var sub := StateOf(log);
    var claim := Claim(sub, IdempotencyKey(sub).value, claimAt);
    WellFormedExtend(log, claim);
    var report := Report(sub, answer, maxAttempts, reportAt);
    if report.Some? {
      WellFormedExtend(log + [claim], report.value);
    }
  }

  /** An event of the dispatch job. */
  predicate ByTheJob(e: Event, at: Time) {
    e.actor == SYSTEM_ACTOR && e.actorRole.System? && e.occurredAt == at
  }

  /** The event says what CPI answered to an attempt. */
  predicate Answered(e: Event, answer: Answer, attempt: int, maxAttempts: int) {
    match answer
    case Order(reference) => e.payload == CpiSucceeded(reference, attempt)
    case Rejects(error) => e.payload == CpiFailed(error, attempt, true)
    case Transient(error) => e.payload == CpiFailed(error, attempt, attempt >= maxAttempts)
    case Explodes => false
  }

  /** What a dispatch has made of a request: its log goes on with a claim, and its state shows the answer. */
  predicate AnswerRecorded(
      before: seq<Event>, after: seq<Event>, answer: Answer, maxAttempts: int, claimAt: Time, reportAt: Time)
    requires WellFormed(before) && WellFormed(after)
  {
    var was, sub, n := StateOf(before), StateOf(after), |before|;
    && |after| > n && after[..n] == before && ByTheJob(after[n], claimAt)
    && after[n].payload.CpiDispatched? && Some(after[n].payload.idempotencyKey) == IdempotencyKey(was)
    && after[n].payload.attempt == sub.cpiAttempts == was.cpiAttempts + 1
    && sub.validatedSeq == was.validatedSeq && sub.values == was.values
    && (if answer.Explodes? then |after| == n + 1 else |after| == n + 2 && ByTheJob(after[n + 1], reportAt))
    && match answer
       case Order(reference) => sub.status.CPI_DONE? && sub.cpiReference == Some(reference) && sub.cpiError.None?
       case Rejects(error) => sub.status.CPI_FAILED? && sub.cpiError == Some(error)
       case Transient(error) =>
         && sub.cpiError == Some(error)
         && sub.status == if sub.cpiAttempts >= maxAttempts then CPI_FAILED else CPI_PENDING
       case Explodes => sub.status.CPI_PENDING? && sub.cpiError == was.cpiError
  }

  /** The outcome that the logs show: a claim without a result is what an unexpected error leaves. */
  function OutcomeSeen(before: seq<Event>, after: seq<Event>): Outcome
    requires WellFormed(after)
  {
    if |after| <= |before| + 1 then Raised
    else
      match StateOf(after).status
      case CPI_DONE => Succeeded
      case CPI_FAILED => DeadLettered
      case _ => Retried
  }

  lemma DispatchIsRecorded(log: seq<Event>, answer: Answer, maxAttempts: int, claimAt: Time, reportAt: Time)
    requires WellFormed(log) && IdempotencyKey(StateOf(log)).Some?
    ensures var after := Dispatched(log, answer, maxAttempts, claimAt, reportAt);
            && WellFormed(after) && AnswerRecorded(log, after, answer, maxAttempts, claimAt, reportAt)
            && OutcomeOf(StateOf(log), answer, maxAttempts) == OutcomeSeen(log, after)
  {
    hide KeyText;
    DispatchedWellFormed(log, answer, maxAttempts, claimAt, reportAt);
    FoldedPosition(log);
    FoldedProvenance(log);
    var sub, after := StateOf(log), Dispatched(log, answer, maxAttempts, claimAt, reportAt);
    var claim, report := Claim(sub, IdempotencyKey(sub).value, claimAt), Report(sub, answer, maxAttempts, reportAt);
    WellFormedExtend(log, claim);
    if report.Some? {
      WellFormedExtend(log + [claim], report.value);
    }
    hide WellFormed, StateOf;
    assert StateOf(log + [claim]) == Apply(sub, claim);
    match answer {
      case Explodes =>
        assert after == log + [claim];
      case _ =>
        assert after == log + [claim] + [report.value] && StateOf(after) == Apply(Apply(sub, claim), report.value);
    }
  }

  /** A system append on a log that has grown meanwhile is a conflict. */
  lemma LateAppendConflicts(logs: Logs, snapshot: seq<Event>, e: Event)
    requires StoreOk(logs) && WellFormed(snapshot) && Continues(snapshot, e)
    requires snapshot[0].submissionId in logs && snapshot < logs[snapshot[0].submissionId]
    ensures AppendAnswer(logs, SYSTEM, snapshot[0].submissionId, |snapshot|, e) == Err(Conflict)
    ensures AfterAppend(logs, SYSTEM, snapshot[0].submissionId, |snapshot|, e) == logs
  {
  }

  /**
   One submission, taken from a snapshot. A snapshot that is no longer current loses the claim: nothing is written and CPI
   is not called. With a current one there is one claim, one call under the snapshot's key with its payload, and one report.
   */
  method DispatchOne(
      repo: SubmissionRepository, cpi: CpiClient, sub: Submission, ghost snapshot: seq<Event>, maxAttempts: int,
      claimAt: Time, reportAt: Time)
    returns (outcome: Outcome)
    requires repo.Valid() && WellFormed(snapshot) && sub == StateOf(snapshot) && snapshot[0].submissionId in repo.Logs()
    requires snapshot <= repo.Logs()[snapshot[0].submissionId]
    modifies repo.Objects(), cpi
    ensures repo.Valid()
    ensures IdempotencyKey(sub).None? ==>
              outcome == Raised && repo.Logs() == old(repo.Logs()) && cpi.calls == old(cpi.calls) && cpi.script == old(cpi.script)
    ensures IdempotencyKey(sub).Some? && snapshot != old(repo.Logs())[snapshot[0].submissionId] ==>
              outcome == Skipped && repo.Logs() == old(repo.Logs()) && cpi.calls == old(cpi.calls) && cpi.script == old(cpi.script)
    ensures IdempotencyKey(sub).Some? && snapshot == old(repo.Logs())[snapshot[0].submissionId] ==>
              var sid := snapshot[0].submissionId;
              var key := IdempotencyKey(sub).value;
              var answer := if old(cpi.script) == [] then Explodes else old(cpi.script)[0];
              && outcome == OutcomeOf(sub, answer, maxAttempts)
              && repo.Logs() == old(repo.Logs())[sid := Dispatched(snapshot, answer, maxAttempts, claimAt, reportAt)]
              && cpi.calls == old(cpi.calls) + [(key, BuildPayload(sub, key))]
              && cpi.script == (if old(cpi.script) == [] then [] else old(cpi.script)[1..])
              && Sends(cpi.calls[|old(cpi.calls)|].1, key, snapshot)
              && WellFormed(repo.Logs()[sid])
              && AnswerRecorded(snapshot, repo.Logs()[sid], answer, maxAttempts, claimAt, reportAt)
              && outcome == OutcomeSeen(snapshot, repo.Logs()[sid])
  {
    hide Sends, AnswerRecorded, OutcomeSeen;
    hide AppendAnswer, AfterAppend, KeyText, StateOf, Apply, BuildPayload, SubmissionRepository.Valid, SubmissionRepository.Logs;
    FoldedPosition(snapshot);
    FoldedProvenance(snapshot);
    var key := IdempotencyKey(sub);
    if key.None? {
      return Raised;
    }
    var sid, seqNo, attempt := sub.submissionId, sub.seqNo, sub.cpiAttempts + 1;
    var claim := SystemEvent(sid, sub.accountId, seqNo + 1, CpiDispatched(key.value, attempt), claimAt);
    if snapshot == repo.Logs()[sid] {
      NextAppends(repo.Logs(), SYSTEM, sid, claim);
    } else {
      LateAppendConflicts(repo.Logs(), snapshot, claim);
    }
    var claimed := repo.AppendEvent(SYSTEM, sid, seqNo, claim);
    if claimed == Err(Conflict) {
      return Skipped;
    }
    var answer := cpi.CreateReturnOrder(key.value, BuildPayload(sub, key.value));
    outcome := ReportAnswer(repo, sub, snapshot, claim, answer, maxAttempts, reportAt);
    DispatchedIs(snapshot, answer, maxAttempts, claimAt, reportAt);
    PayloadSends(snapshot, key.value);
    DispatchIsRecorded(snapshot, answer, maxAttempts, claimAt, reportAt);
  }

  lemma DispatchedIs(log: seq<Event>, answer: Answer, maxAttempts: int, claimAt: Time, reportAt: Time)
    requires WellFormed(log) && IdempotencyKey(StateOf(log)).Some? && StateOf(log).seqNo == |log|
    ensures var sub := StateOf(log);
            var report := Report(sub, answer, maxAttempts, reportAt);
            Dispatched(log, answer, maxAttempts, claimAt, reportAt) ==
            log + [Claim(sub, IdempotencyKey(sub).value, claimAt)] + if report.Some? then [report.value] else []
  {
  }

  /** Records what CPI answered, right after the runner's own claim. */
  method ReportAnswer(
      repo: SubmissionRepository, sub: Submission, ghost snapshot: seq<Event>, ghost claim: Event, answer: Answer,
      maxAttempts: int, reportAt: Time)
    returns (outcome: Outcome)
    requires repo.Valid() && WellFormed(snapshot) && Continues(snapshot, claim) && sub.submissionId in repo.Logs()
    requires repo.Logs()[sub.submissionId] == snapshot + [claim]
    requires sub.seqNo == |snapshot| && sub.submissionId == snapshot[0].submissionId && sub.accountId == snapshot[0].accountId
    modifies repo.Objects()
    ensures repo.Valid() && outcome == OutcomeOf(sub, answer, maxAttempts)
    ensures var report := Report(sub, answer, maxAttempts, reportAt);
            repo.Logs() == old(repo.Logs())[sub.submissionId := snapshot + [claim] + if report.Some? then [report.value] else []]
    ensures var n, log := |snapshot|, repo.Logs()[sub.submissionId];
            if answer.Explodes? then log == snapshot + [claim] && outcome == Raised
            else
              && |log| == n + 2 && log[..n + 1] == snapshot + [claim] && ByTheJob(log[n + 1], reportAt)
              && Answered(log[n + 1], answer, sub.cpiAttempts + 1, maxAttempts)
              && outcome == if log[n + 1].payload.CpiSucceeded? then Succeeded
                            else if log[n + 1].payload.terminal then DeadLettered
                            else Retried
  {
    hide AppendAnswer, AfterAppend, StateOf;
    var sid, account, seqNo, attempt := sub.submissionId, sub.accountId, sub.seqNo + 1, sub.cpiAttempts + 1;
    WellFormedExtend(snapshot, claim);
    match answer {
      case Order(reference) =>
        var report := SystemEvent(sid, account, seqNo + 1, CpiSucceeded(reference, attempt), reportAt);
        NextAppends(repo.Logs(), SYSTEM, sid, report);
        var reported := repo.AppendEvent(SYSTEM, sid, seqNo, report);
        outcome := Succeeded;
      case Rejects(error) =>
        var report := SystemEvent(sid, account, seqNo + 1, CpiFailed(error, attempt, true), reportAt);
        NextAppends(repo.Logs(), SYSTEM, sid, report);
        var reported := repo.AppendEvent(SYSTEM, sid, seqNo, report);
        outcome := DeadLettered;
      case Transient(error) =>
        var terminal := attempt >= maxAttempts;
        var report := SystemEvent(sid, account, seqNo + 1, CpiFailed(error, attempt, terminal), reportAt);
        NextAppends(repo.Logs(), SYSTEM, sid, report);
        var reported := repo.AppendEvent(SYSTEM, sid, seqNo, report);
        outcome := if terminal then DeadLettered else Retried;
      case Explodes =>
        outcome := Raised;
        assert snapshot + [claim] + [] == snapshot + [claim];
    }
  }

  /** The outcome lists of one run. */
  datatype DispatchReport = DispatchReport(
    succeeded: seq<string>, retried: seq<string>, deadLettered: seq<string>, skipped: seq<string>)
  {
    /** `getattr(report, outcome).append(sid)`; an unexpected error is logged only. */
    function With(outcome: Outcome, sid: string): DispatchReport {
      match outcome
      case Succeeded => this.(succeeded := succeeded + [sid])
      case Retried => this.(retried := retried + [sid])
      case DeadLettered => this.(deadLettered := deadLettered + [sid])
      case Skipped => this.(skipped := skipped + [sid])
      case Raised => this
    }
  }

  /** Where a submission stands in a run: dispatched with some answer, or as before. */
  ghost predicate DispatchedOnce(before: seq<Event>, after: seq<Event>, maxAttempts: int)
    requires WellFormed(before) && IdempotencyKey(StateOf(before)).Some?
  {
    exists answer, claimAt, reportAt :: after == Dispatched(before, answer, maxAttempts, claimAt, reportAt) && !answer.Explodes?
  }

  /** A run picks this submission: it is work, and the listing of its status gets as far as it. */
  predicate Picks(b: Backend, logs: Logs, sid: string, maxAttempts: int, staleAfter: int, now: Time)
    requires StoreOk(logs) && sid in logs
  {
    IsWork(StateOf(logs[sid]), maxAttempts, staleAfter, now) && InSight(b, logs, sid, WORK_LIMIT)
  }

  /** A crash-free run by a single runner: every submission it picks is dispatched once, nothing else changes. */
  ghost predicate RanOnce(b: Backend, before: Logs, after: Logs, maxAttempts: int, staleAfter: int, now: Time)
    requires StoreOk(before)
  {
    && after.Keys == before.Keys
    && forall sid <- before :: sid in after &&
         if Picks(b, before, sid, maxAttempts, staleAfter, now) then
           IdempotencyKey(StateOf(before[sid])).Some? && DispatchedOnce(before[sid], after[sid], maxAttempts)
         else after[sid] == before[sid]
  }

  lemma {:induction false} EligibleMembers(subs: seq<Submission>, maxAttempts: int, staleAfter: int, now: Time)
    ensures forall s :: s in Eligible(subs, maxAttempts, staleAfter, now) <==> s in subs && Retryable(s, maxAttempts, staleAfter, now)
  {
    if |subs| > 0 {
      EligibleMembers(subs[..|subs| - 1], maxAttempts, staleAfter, now);
      assert subs == subs[..|subs| - 1] + [subs[|subs| - 1]];
    }
  }

  lemma {:induction false} EligibleDistinct(subs: seq<Submission>, maxAttempts: int, staleAfter: int, now: Time)
    requires DistinctIds(subs)
    ensures DistinctIds(Eligible(subs, maxAttempts, staleAfter, now))
  {
    if |subs| > 0 {
      var init := subs[..|subs| - 1];
      EligibleDistinct(init, maxAttempts, staleAfter, now);
      EligibleMembers(init, maxAttempts, staleAfter, now);
      var r := Eligible(init, maxAttempts, staleAfter, now);
      assert forall i :: 0 <= i < |r| ==> r[i] in init;
    }
  }

  lemma ListingMembers(b: Backend, logs: Logs, status: Status)
    requires StoreOk(logs)
    ensures var listed := ListingOf(b, logs, SYSTEM, Some(status), WORK_LIMIT);
            IsWorkOf(logs, listed) && forall s <- listed :: s.status == status
  {
    hide WithStatus, StateOf, NewestFirst, WellFormed;
    var all := NewestFirst(logs, SYSTEM);
    var front := if b.Memory? then all else Take(all, Candidates(Some(status), WORK_LIMIT));
    WithStatusMembers(front, Some(status));
    WithStatusDistinctIds(front, Some(status));
    forall s <- ListingOf(b, logs, SYSTEM, Some(status), WORK_LIMIT)
      ensures s in all && s.status == status
    {
      assert s in front;
    }
  }

  /** What a listing of one status shows: current states of different submissions, exactly those in sight. */
  lemma StatusListing(b: Backend, logs: Logs, status: Status)
    requires StoreOk(logs)
    ensures var listed := ListingOf(b, logs, SYSTEM, Some(status), WORK_LIMIT);
            && IsWorkOf(logs, listed) && (forall s <- listed :: s.status == status)
            && forall sid <- logs :: StateOf(logs[sid]) in listed <==>
                 StateOf(logs[sid]).status == status && InSight(b, logs, sid, WORK_LIMIT)
  {
    hide ListingOf, StateOf, InSight, WellFormed;
    var listed := ListingOf(b, logs, SYSTEM, Some(status), WORK_LIMIT);
    ListingMembers(b, logs, status);
    forall sid <- logs
      ensures StateOf(logs[sid]) in listed <==> StateOf(logs[sid]).status == status && InSight(b, logs, sid, WORK_LIMIT)
    {
      if StateOf(logs[sid]).status == status {
        ListedIff(b, logs, SYSTEM, sid, WORK_LIMIT);
      }
    }
  }

  /** The work is current states, each once, and exactly those that a run picks: qualifying and in sight. */
  lemma WorkIsExact(b: Backend, logs: Logs, maxAttempts: int, staleAfter: int, now: Time)
    requires StoreOk(logs)
    ensures var work := Work(b, logs, maxAttempts, staleAfter, now);
            && IsWorkOf(logs, work)
            && forall sid <- logs :: StateOf(logs[sid]) in work <==> Picks(b, logs, sid, maxAttempts, staleAfter, now)
  {
    hide ListingOf, Eligible, StateOf, InSight, Retryable, WellFormed;
    StatusListing(b, logs, VALIDATED);
    StatusListing(b, logs, CPI_PENDING);
    var validated := ListingOf(b, logs, SYSTEM, Some(VALIDATED), WORK_LIMIT);
    var pending := ListingOf(b, logs, SYSTEM, Some(CPI_PENDING), WORK_LIMIT);
    var eligible := Eligible(pending, maxAttempts, staleAfter, now);
    EligibleMembers(pending, maxAttempts, staleAfter, now);
    EligibleDistinct(pending, maxAttempts, staleAfter, now);
    BothStatuses(validated, eligible, logs);
  }

  function StatusIds(logs: Logs, status: Status): set<string>
    requires StoreOk(logs)
  {
    set sid | sid in logs && StateOf(logs[sid]).status == status
  }

  /** No status the job looks at overflows one listing, and the SQL repository has all submissions among its candidates. */
  predicate WithinReach(b: Backend, logs: Logs)
    requires StoreOk(logs)
  {
    && |StatusIds(logs, VALIDATED)| <= WORK_LIMIT && |StatusIds(logs, CPI_PENDING)| <= WORK_LIMIT
    && (b.Sql? ==> |logs| <= MAX_CANDIDATES)
  }

  /** Within reach, a run picks everything that qualifies. */
  lemma WorkIsComplete(b: Backend, logs: Logs, sid: string, maxAttempts: int, staleAfter: int, now: Time)
    requires StoreOk(logs) && sid in logs && WithinReach(b, logs)
    ensures IsWork(StateOf(logs[sid]), maxAttempts, staleAfter, now) ==>
              StateOf(logs[sid]) in Work(b, logs, maxAttempts, staleAfter, now)
  {
    hide StateOf, Work, Retryable;
    WorkIsExact(b, logs, maxAttempts, staleAfter, now);
    NewerIrreflexive(KeyOf(logs, sid));
    var rivals := RivalIds(logs, sid);
    SubsetSize(rivals + {sid}, StatusIds(logs, StateOf(logs[sid]).status));
    SubsetSize(NewerIds(logs, sid) + {sid}, logs.Keys);
    assert |logs.Keys| == |logs|;
  }

  /** Up to that many submissions the two stores give a run the same work. */
  lemma StoresGiveSameWork(logs: Logs, maxAttempts: int, staleAfter: int, now: Time)
    requires StoreOk(logs) && |logs| <= MAX_CANDIDATES
    ensures Work(Sql, logs, maxAttempts, staleAfter, now) == Work(Memory, logs, maxAttempts, staleAfter, now)
  {
    hide NewestFirst, WithStatus, Eligible;
    var all := NewestFirst(logs, SYSTEM);
    AllFit(logs);
    PushedListingExactIff(logs, SYSTEM, Some(VALIDATED), WORK_LIMIT);
    PushedListingExactIff(logs, SYSTEM, Some(CPI_PENDING), WORK_LIMIT);
  }

  lemma AllFit(logs: Logs)
    requires StoreOk(logs)
    ensures |NewestFirst(logs, SYSTEM)| <= |logs|
  {
    hide NewestFirst, StateOf;
    IdsCount(NewestFirst(logs, SYSTEM));
    SubsetSize(IdsOf(NewestFirst(logs, SYSTEM)), logs.Keys);
    assert |logs.Keys| == |logs|;
  }

  /** Over SQL, a request behind that many newer submissions is no run's work, now or however the logs grow. */
  lemma StarvedForever(
      logs: Logs, logs': Logs, sid: string, maxAttempts: int, staleAfter: int, now: Time)
    requires StoreOk(logs) && StoreOk(logs') && Grows(logs, logs') && sid in logs && |NewerIds(logs, sid)| >= MAX_CANDIDATES
    ensures sid in logs' && StateOf(logs'[sid]) !in Work(Sql, logs', maxAttempts, staleAfter, now)
  {
    hide StateOf, Work, NewerIds, RivalIds, IsWork, WellFormed;
    NewerIdsGrow(logs, logs', sid);
    WorkIsExact(Sql, logs', maxAttempts, staleAfter, now);
  }

  /** For instance the oldest of 5,001 requests, the only validated one: work over the in-memory store, starved over SQL. */
  lemma StarvedExample(maxAttempts: int, staleAfter: int, now: Time)
    ensures var logs := Crowd(MAX_CANDIDATES + 1);
            && StoreOk(logs) && Named(0) in logs && |StatusIds(logs, VALIDATED)| == 1
            && StateOf(logs[Named(0)]) in Work(Memory, logs, maxAttempts, staleAfter, now)
            && StateOf(logs[Named(0)]) !in Work(Sql, logs, maxAttempts, staleAfter, now)
  {
    hide StateOf, Work, NewerIds, RivalIds, Crowd, Named, WellFormed;
    var logs := Crowd(MAX_CANDIDATES + 1);
    LastOfCrowd(MAX_CANDIDATES + 1);
    WorkIsExact(Memory, logs, maxAttempts, staleAfter, now);
    WorkIsExact(Sql, logs, maxAttempts, staleAfter, now);
    assert StatusIds(logs, VALIDATED) == {Named(0)};
  }

  lemma BothStatuses(a: seq<Submission>, b: seq<Submission>, logs: Logs)
    requires StoreOk(logs) && DistinctIds(a) && DistinctIds(b)
    requires forall s <- a :: s.submissionId in logs && s == StateOf(logs[s.submissionId]) && s.status.VALIDATED?
    requires forall s <- b :: s.submissionId in logs && s == StateOf(logs[s.submissionId]) && s.status.CPI_PENDING?
    ensures DistinctIds(a + b)
  {
    forall i, j | 0 <= i < |a| && 0 <= j < |b|
      ensures a[i].submissionId != b[j].submissionId
    {
      assert a[i] in a && b[j] in b;
    }
  }

  /** Current states of different submissions. */
  predicate IsWorkOf(logs: Logs, work: seq<Submission>)
    requires StoreOk(logs)
  {
    DistinctIds(work) && forall s <- work :: s.submissionId in logs && s == StateOf(logs[s.submissionId])
  }

  /** The calls that a run over `work` makes: each with its own key and payload, in order. */
  function CallsFor(work: seq<Submission>): seq<(string, Values)> {
    if |work| == 0 then []
    else
      var sub := work[|work| - 1];
      var key := IdempotencyKey(sub);
      CallsFor(work[..|work| - 1]) + if key.Some? then [(key.value, BuildPayload(sub, key.value))] else []
  }

  /** The calls are those of the items with a key, in order, each under that key and with the values of the item's log. */
  ghost predicate CallsSend(logs: Logs, work: seq<Submission>, calls: seq<(string, Values)>)
    requires StoreOk(logs) && IsWorkOf(logs, work)
  {
    if |work| == 0 then calls == []
    else
      var n := |work| - 1;
      var key := IdempotencyKey(work[n]);
      assert work[n] in work && IsWorkOf(logs, work[..n]);
      if key.None? then CallsSend(logs, work[..n], calls)
      else
        && |calls| > 0 && CallsSend(logs, work[..n], calls[..|calls| - 1])
        && calls[|calls| - 1].0 == key.value && Sends(calls[|calls| - 1].1, key.value, logs[work[n].submissionId])
  }

  lemma {:induction false} CallsForSend(logs: Logs, work: seq<Submission>)
    requires StoreOk(logs) && IsWorkOf(logs, work)
    ensures CallsSend(logs, work, CallsFor(work))
  {
    hide BuildPayload, Sends, IdempotencyKey, StateOf, WellFormed;
    if |work| > 0 {
      var n := |work| - 1;
      assert work[n] in work && IsWorkOf(logs, work[..n]);
      CallsForSend(logs, work[..n]);
      var key := IdempotencyKey(work[n]);
      if key.Some? {
        PayloadSends(logs[work[n].submissionId], key.value);
        assert CallsFor(work)[..|CallsFor(work)| - 1] == CallsFor(work[..n]);
      } else {
        assert CallsFor(work) == CallsFor(work[..n]);
      }
    }
  }

  /** The ids, in order, of the items whose logs show this outcome. */
  ghost function IdsWith(before: Logs, after: Logs, work: seq<Submission>, outcome: Outcome): seq<string>
    requires StoreOk(before) && StoreOk(after) && IsWorkOf(before, work) && after.Keys == before.Keys
  {
    if |work| == 0 then []
    else
      var n := |work| - 1;
      var sid := work[n].submissionId;
      assert work[n] in work && IsWorkOf(before, work[..n]);
      IdsWith(before, after, work[..n], outcome) + if OutcomeSeen(before[sid], after[sid]) == outcome then [sid] else []
  }

  /** The answer to call number `k`. */
  function AnswerAt(script: seq<Answer>, k: nat): Answer {
    if k < |script| then script[k] else Explodes
  }

  /** What is left of the script after `k` calls. */
  function LeftAfter(script: seq<Answer>, k: nat): seq<Answer> {
    if k < |script| then script[k..] else []
  }

  lemma NextAnswer(script: seq<Answer>, k: nat)
    ensures var left := LeftAfter(script, k);
            && AnswerAt(script, k) == (if left == [] then Explodes else left[0])
            && LeftAfter(script, k + 1) == if left == [] then [] else left[1..]
  {
  }

  /** The answer that the work item at `i` gets. */
  function AnswerFor(work: seq<Submission>, script: seq<Answer>, i: nat): Answer
    requires i < |work|
  {
    AnswerAt(script, |CallsFor(work[..i])|)
  }

  function ReportOf(work: seq<Submission>, script: seq<Answer>, maxAttempts: int): DispatchReport {
    if |work| == 0 then DispatchReport([], [], [], [])
    else
      var n := |work| - 1;
      var outcome := if IdempotencyKey(work[n]).None? then Raised else OutcomeOf(work[n], AnswerFor(work, script, n), maxAttempts);
      ReportOf(work[..n], script, maxAttempts).With(outcome, work[n].submissionId)
  }

  /** After the first `n` items of a run: those with a key are dispatched, everything else is as it was. */
  ghost predicate PartRun(
      before: Logs, work: seq<Submission>, n: nat, script: seq<Answer>, after: Logs, maxAttempts: int, now: Time)
    requires StoreOk(before) && n <= |work| && IsWorkOf(before, work)
  {
    && after.Keys == before.Keys
    && (forall i :: 0 <= i < n && IdempotencyKey(work[i]).Some? ==>
          (&& work[i] in work
           && after[work[i].submissionId] ==
              Dispatched(before[work[i].submissionId], AnswerFor(work, script, i), maxAttempts, now, now)))
    && (forall sid <- before ::
          (forall i :: 0 <= i < n && IdempotencyKey(work[i]).Some? ==> work[i].submissionId != sid) ==> after[sid] == before[sid])
  }

  /** Every item with a key has its answer recorded, and everything else is as it was. */
  ghost predicate RunRecorded(before: Logs, work: seq<Submission>, script: seq<Answer>, after: Logs, maxAttempts: int, now: Time)
    requires StoreOk(before) && StoreOk(after) && IsWorkOf(before, work)
  {
    && after.Keys == before.Keys
    && (forall i :: 0 <= i < |work| ==>
          && work[i] in work
          && var sid := work[i].submissionId;
             if IdempotencyKey(work[i]).None? then after[sid] == before[sid]
             else AnswerRecorded(before[sid], after[sid], AnswerFor(work, script, i), maxAttempts, now, now))
    && forall sid <- before :: (forall i :: 0 <= i < |work| ==> work[i].submissionId != sid) ==> after[sid] == before[sid]
  }

  /** The report that the logs call for. */
  ghost function ReportSeen(before: Logs, after: Logs, work: seq<Submission>): DispatchReport
    requires StoreOk(before) && StoreOk(after) && IsWorkOf(before, work) && after.Keys == before.Keys
  {
    DispatchReport(
      IdsWith(before, after, work, Succeeded), IdsWith(before, after, work, Retried), IdsWith(before, after, work, DeadLettered), [])
  }

  lemma ItemIsRecorded(
      before: Logs, work: seq<Submission>, i: nat, script: seq<Answer>, after: Logs, maxAttempts: int, now: Time)
    requires StoreOk(before) && StoreOk(after) && IsWorkOf(before, work) && i < |work|
    requires PartRun(before, work, |work|, script, after, maxAttempts, now)
    ensures work[i] in work
    ensures var sid := work[i].submissionId;
            if IdempotencyKey(work[i]).None? then after[sid] == before[sid] && OutcomeSeen(before[sid], after[sid]) == Raised
            else
              && AnswerRecorded(before[sid], after[sid], AnswerFor(work, script, i), maxAttempts, now, now)
              && OutcomeSeen(before[sid], after[sid]) == OutcomeOf(work[i], AnswerFor(work, script, i), maxAttempts)
  {
    hide Dispatched, StateOf, AnswerRecorded, OutcomeOf, AnswerFor, IdempotencyKey, WellFormed;
    assert work[i] in work;
    var sid := work[i].submissionId;
    if IdempotencyKey(work[i]).Some? {
      DispatchIsRecorded(before[sid], AnswerFor(work, script, i), maxAttempts, now, now);
    } else {
      forall j | 0 <= j < |work| && IdempotencyKey(work[j]).Some?
        ensures work[j].submissionId != sid
      {
      }
    }
  }

  lemma RunIsRecorded(
      before: Logs, work: seq<Submission>, script: seq<Answer>, after: Logs, maxAttempts: int, now: Time)
    requires StoreOk(before) && StoreOk(after) && IsWorkOf(before, work)
    requires PartRun(before, work, |work|, script, after, maxAttempts, now)
    ensures RunRecorded(before, work, script, after, maxAttempts, now)
    ensures ReportOf(work, script, maxAttempts) == ReportSeen(before, after, work)
  {
    hide AnswerRecorded, OutcomeSeen, OutcomeOf, AnswerFor, IdempotencyKey, StateOf, Dispatched, WellFormed, ReportOf, ReportSeen;
    forall i | 0 <= i < |work|
      ensures work[i] in work
      ensures var sid := work[i].submissionId;
              if IdempotencyKey(work[i]).None? then after[sid] == before[sid] && OutcomeSeen(before[sid], after[sid]) == Raised
              else
                && AnswerRecorded(before[sid], after[sid], AnswerFor(work, script, i), maxAttempts, now, now)
                && OutcomeSeen(before[sid], after[sid]) == OutcomeOf(work[i], AnswerFor(work, script, i), maxAttempts)
    {
      ItemIsRecorded(before, work, i, script, after, maxAttempts, now);
    }
    ReportIsSeen(before, after, work, |work|, script, maxAttempts);
    assert work[..|work|] == work;
  }

  /** Every outcome goes to its own list. */
  lemma {:induction false} ReportIsSeen(
      before: Logs, after: Logs, work: seq<Submission>, n: nat, script: seq<Answer>, maxAttempts: int)
    requires StoreOk(before) && StoreOk(after) && IsWorkOf(before, work) && after.Keys == before.Keys && n <= |work|
    requires forall i :: 0 <= i < |work| ==>
               && work[i] in work
               && OutcomeSeen(before[work[i].submissionId], after[work[i].submissionId]) ==
                  if IdempotencyKey(work[i]).None? then Raised else OutcomeOf(work[i], AnswerFor(work, script, i), maxAttempts)
    ensures IsWorkOf(before, work[..n])
    ensures ReportOf(work[..n], script, maxAttempts) == ReportSeen(before, after, work[..n])
  {
    hide OutcomeSeen, OutcomeOf, AnswerFor, IdempotencyKey, StateOf, WellFormed;
    assert IsWorkOf(before, work[..n]);
    if n > 0 {
      ReportIsSeen(before, after, work, n - 1, script, maxAttempts);
      OneMoreItem(work, n - 1, script, maxAttempts);
      assert work[..n][..n - 1] == work[..n - 1];
      NeverSkipped(work[n - 1], AnswerFor(work, script, n - 1), maxAttempts);
    }
  }

  lemma NeverSkipped(sub: Submission, answer: Answer, maxAttempts: int)
    ensures !OutcomeOf(sub, answer, maxAttempts).Skipped?
  {
  }

  /** CPI answers every call, with none of its answers an unexpected error. */
  predicate CrashFree(script: seq<Answer>, calls: nat) {
    |script| >= calls && forall a <- script :: !a.Explodes?
  }

  /** All of the work was validated. */
  predicate AllKeyed(work: seq<Submission>) {
    forall s <- work :: IdempotencyKey(s).Some?
  }

  /**
   `run_once` over either store: every item of work with a key is dispatched once, in order, with one call under its own key
   and payload, whatever the answers; nothing else changes.
   */
  method RunOnce(repo: SubmissionRepository, cpi: CpiClient, maxAttempts: int, staleAfter: int, now: Time)
    returns (report: DispatchReport)
    requires repo.Valid()
    modifies repo.Objects(), cpi
    ensures repo.Valid()
    ensures var work := Work(repo.Backend(), old(repo.Logs()), maxAttempts, staleAfter, now);
            && IsWorkOf(old(repo.Logs()), work)
            && cpi.calls == old(cpi.calls) + CallsFor(work)
            && report == ReportOf(work, old(cpi.script), maxAttempts)
            && PartRun(old(repo.Logs()), work, |work|, old(cpi.script), repo.Logs(), maxAttempts, now)
            && (CrashFree(old(cpi.script), |CallsFor(work)|) && AllKeyed(work) ==>
                  RanOnce(repo.Backend(), old(repo.Logs()), repo.Logs(), maxAttempts, staleAfter, now))
    ensures var before, work := old(repo.Logs()), Work(repo.Backend(), old(repo.Logs()), maxAttempts, staleAfter, now);
            && CallsSend(before, work, cpi.calls[|old(cpi.calls)|..])
            && RunRecorded(before, work, old(cpi.script), repo.Logs(), maxAttempts, now)
            && report == ReportSeen(before, repo.Logs(), work)
  {
    hide CallsSend, RunRecorded, ReportSeen, AnswerRecorded, Sends, OutcomeSeen;
    hide KeyText, Dispatched, Work, StateOf, BuildPayload, InSight, PartRun, RanOnce, IsWork, OutcomeOf, IdempotencyKey;
    hide LeftAfter, AnswerAt, CallsFor, ReportOf;
    ghost var before, script, calls := repo.Logs(), cpi.script, cpi.calls;
    WorkIsExact(repo.Backend(), before, maxAttempts, staleAfter, now);
    report := DispatchReport([], [], [], []);
    var work := PendingWork(repo, maxAttempts, staleAfter, now);
    PartRunStart(before, work, script, maxAttempts, now);
    NothingYet(work, script, maxAttempts);
    for i := 0 to |work|
      invariant repo.Valid() && PartRun(before, work, i, script, repo.Logs(), maxAttempts, now)
      invariant cpi.calls == calls + CallsFor(work[..i]) && cpi.script == LeftAfter(script, |CallsFor(work[..i])|)
      invariant report == ReportOf(work[..i], script, maxAttempts)
    {
      var sub := work[i];
      ghost var sid, previous := sub.submissionId, repo.Logs();
      PartRunUntouched(before, work, i, script, previous, maxAttempts, now);
      FoldedProvenance(before[sid]);
      NextAnswer(script, |CallsFor(work[..i])|);
      var outcome := DispatchOne(repo, cpi, sub, before[sid], maxAttempts, now, now);
      PartRunStep(before, work, i, script, previous, repo.Logs(), maxAttempts, now);
      OneMoreItem(work, i, script, maxAttempts);
      report := report.With(outcome, sub.submissionId);
    }
    assert work[..|work|] == work;
    CallsForSend(before, work);
    assert cpi.calls[|calls|..] == CallsFor(work);
    RunIsRecorded(before, work, script, repo.Logs(), maxAttempts, now);
    if CrashFree(script, |CallsFor(work)|) && AllKeyed(work) {
      WholeRun(repo.Backend(), before, work, script, repo.Logs(), maxAttempts, staleAfter, now);
    }
  }

  lemma NothingYet(work: seq<Submission>, script: seq<Answer>, maxAttempts: int)
    ensures CallsFor(work[..0]) == [] && ReportOf(work[..0], script, maxAttempts) == DispatchReport([], [], [], [])
    ensures LeftAfter(script, 0) == script
  {
  }

  lemma OneMoreItem(work: seq<Submission>, i: nat, script: seq<Answer>, maxAttempts: int)
    requires i < |work|
    ensures var key := IdempotencyKey(work[i]);
            && CallsFor(work[..i + 1]) ==
               CallsFor(work[..i]) + (if key.Some? then [(key.value, BuildPayload(work[i], key.value))] else [])
            && ReportOf(work[..i + 1], script, maxAttempts) ==
               ReportOf(work[..i], script, maxAttempts).With(
                 if key.None? then Raised else OutcomeOf(work[i], AnswerFor(work, script, i), maxAttempts), work[i].submissionId)
  {
    hide IdempotencyKey, BuildPayload, OutcomeOf;
    assert work[..i + 1][..i] == work[..i];
  }

  lemma PartRunStart(before: Logs, work: seq<Submission>, script: seq<Answer>, maxAttempts: int, now: Time)
    requires StoreOk(before) && IsWorkOf(before, work)
    ensures PartRun(before, work, 0, script, before, maxAttempts, now)
  {
  }

  lemma PartRunUntouched(
      before: Logs, work: seq<Submission>, i: nat, script: seq<Answer>, logs: Logs, maxAttempts: int, now: Time)
    requires StoreOk(before) && IsWorkOf(before, work) && i < |work| && PartRun(before, work, i, script, logs, maxAttempts, now)
    ensures var sid := work[i].submissionId;
            work[i] in work && sid in before && sid in logs && logs[sid] == before[sid]
  {
    hide StateOf, Dispatched, IdempotencyKey;
    var sid := work[i].submissionId;
    assert work[i] in work;
    assert forall j :: 0 <= j < i ==> work[j].submissionId != sid;
  }

  lemma PartRunStep(
      before: Logs, work: seq<Submission>, i: nat, script: seq<Answer>, previous: Logs, after: Logs, maxAttempts: int, now: Time)
    requires StoreOk(before) && IsWorkOf(before, work) && i < |work|
    requires PartRun(before, work, i, script, previous, maxAttempts, now) && work[i] in work
    requires var sid := work[i].submissionId;
             if IdempotencyKey(work[i]).None? then after == previous
             else after == previous[sid := Dispatched(before[sid], AnswerFor(work, script, i), maxAttempts, now, now)]
    ensures PartRun(before, work, i + 1, script, after, maxAttempts, now)
  {
    hide Dispatched, StateOf, KeyText, WellFormed, IdempotencyKey, AnswerFor;
    forall j | 0 <= j < i + 1 && IdempotencyKey(work[j]).Some?
      ensures work[j] in work
    {
    }
  }

  lemma {:induction false} CallsGrow(work: seq<Submission>, i: nat)
    requires i < |work| && IdempotencyKey(work[i]).Some?
    ensures |CallsFor(work[..i])| < |CallsFor(work)|
    decreases |work|
  {
    hide IdempotencyKey, BuildPayload;
    var n := |work| - 1;
    if i < n {
      CallsGrow(work[..n], i);
      assert work[..n][..i] == work[..i];
    }
  }

  lemma WholeRun(
      b: Backend, before: Logs, work: seq<Submission>, script: seq<Answer>, after: Logs, maxAttempts: int, staleAfter: int, now: Time)
    requires StoreOk(before) && IsWorkOf(before, work) && AllKeyed(work) && CrashFree(script, |CallsFor(work)|)
    requires forall sid <- before :: StateOf(before[sid]) in work <==> Picks(b, before, sid, maxAttempts, staleAfter, now)
    requires PartRun(before, work, |work|, script, after, maxAttempts, now)
    ensures RanOnce(b, before, after, maxAttempts, staleAfter, now)
  {
    hide StateOf, Dispatched, IdempotencyKey, Picks, CallsFor;
    forall sid <- before | Picks(b, before, sid, maxAttempts, staleAfter, now)
      ensures IdempotencyKey(StateOf(before[sid])).Some? && DispatchedOnce(before[sid], after[sid], maxAttempts)
    {
      FoldedProvenance(before[sid]);
      var i :| 0 <= i < |work| && work[i] == StateOf(before[sid]);
      assert work[i] in work;
      CallsGrow(work, i);
      assert after[sid] == Dispatched(before[sid], AnswerFor(work, script, i), maxAttempts, now, now);
    }
    forall sid <- before | !Picks(b, before, sid, maxAttempts, staleAfter, now)
      ensures after[sid] == before[sid]
    {
      forall i | 0 <= i < |work|
        ensures work[i].submissionId != sid
      {
        assert work[i] in work;
      }
    }
  }
}
