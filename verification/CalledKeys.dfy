/** How many keys, and so how many orders, CPI sees for one submission: its log tells, but for an attempt in flight. */
module CalledKeys {
  import opened Prelude
  import opened Events
  import opened Folding
  import opened Repository
  import opened Validator
  import opened Services
  import opened Review
  import opened Intake
  import opened Dispatch
  import opened Protocol
  import opened LogLaws
  import opened Runs
  import opened RunLaws

  // ------------------------------------------------ nothing is reported uncalled

  predicate IsResult(e: Event) {
    e.payload.CpiSucceeded? || e.payload.CpiFailed?
  }

  /** CPI was called for the claim with this sequence number. */
  predicate Called(calls: seq<Call>, sid: string, claimSeq: int) {
    exists i :: 0 <= i < |calls| && calls[i].sid == sid && calls[i].claimSeq == claimSeq
  }

  /** A process that holds a result, or waits for one, has made its call. */
  predicate TaskCalled(calls: seq<Call>, t: Task) {
    match t
    case Writing(_, _, e) => IsResult(e) ==> Called(calls, e.submissionId, e.seqNo - 1)
    case Awaiting(_, claim) => Called(calls, claim.submissionId, claim.seqNo)
    case _ => true
  }

  predicate LogCalled(calls: seq<Call>, sid: string, log: seq<Event>) {
    forall i :: 0 <= i < |log| && IsResult(log[i]) ==> Called(calls, sid, i)
  }

  /** Every result in a log, and every result still to be written, comes from a call for the claim before it. */
  predicate ResultsWereCalled(w: World) {
    && (forall sid <- w.logs :: LogCalled(w.calls, sid, w.logs[sid]))
    && (forall id <- w.tasks :: TaskCalled(w.calls, w.tasks[id]))
  }

  lemma CalledStays(calls: seq<Call>, c: Call, sid: string, claimSeq: int)
    requires Called(calls, sid, claimSeq)
    ensures Called(calls + [c], sid, claimSeq)
  {
    var i :| 0 <= i < |calls| && calls[i].sid == sid && calls[i].claimSeq == claimSeq;
    assert (calls + [c])[i] == calls[i];
  }

  /** One more call, made by the process `id`. */
  lemma CallKeepsCalled(w: World, id: nat, base: seq<Event>, claim: Event, c: Call)
    requires ResultsWereCalled(w) && c.sid == claim.submissionId && c.claimSeq == claim.seqNo
    ensures ResultsWereCalled(w.(tasks := w.tasks[id := Awaiting(base, claim)], calls := w.calls + [c]))
  {
    hide Called;
    forall sid, n | Called(w.calls, sid, n)
      ensures Called(w.calls + [c], sid, n)
    {
      CalledStays(w.calls, c, sid, n);
    }
    assert Called(w.calls + [c], claim.submissionId, claim.seqNo) by { LastIsCalled(w.calls, c); }
  }

  lemma LastIsCalled(calls: seq<Call>, c: Call)
    ensures Called(calls + [c], c.sid, c.claimSeq)
  {
    assert (calls + [c])[|calls|] == c;
  }

  lemma TaskKeepsCalled(w: World, id: nat, t: Task)
    requires ResultsWereCalled(w) && TaskCalled(w.calls, t)
    ensures ResultsWereCalled(w.(tasks := w.tasks[id := t]))
  {
    hide TaskCalled, LogCalled;
  }

  lemma DropKeepsCalled(w: World, id: nat)
    requires ResultsWereCalled(w)
    ensures ResultsWereCalled(w.(tasks := w.tasks - {id}))
  {
    hide TaskCalled, LogCalled;
  }

  /** An event at the end of its log, called if it is a result. */
  lemma ExtendKeepsCalled(w: World, logs: Logs, base: seq<Event>, e: Event)
    requires ResultsWereCalled(w) && logs == w.logs[e.submissionId := base + [e]] && e.seqNo == |base| + 1
    requires base == if e.submissionId in w.logs then w.logs[e.submissionId] else []
    requires IsResult(e) ==> Called(w.calls, e.submissionId, e.seqNo - 1)
    ensures ResultsWereCalled(w.(logs := logs))
  {
    hide TaskCalled, Called;
  }

  lemma DecidedIsNoResult(cfg: Config, p: Principal, log: seq<Event>, expected: int, cmd: Review.Command, at: Time)
    requires cfg.spec.Loaded() && WellFormed(log) && Decide(cfg, p, log, expected, cmd, at).Ok?
    ensures !IsResult(Decide(cfg, p, log, expected, cmd, at).value)
  {
    hide StateOf, CheckForm, ValidateField;
  }

  lemma WritingCalled(cfg: Config, w: World, id: nat, at: Time, w': World)
    requires ConfigOk(cfg) && Inv(cfg, w) && Shaped(w) && id in w.tasks && w.tasks[id].Writing? && Appends(w, id, at, w')
    requires ResultsWereCalled(w)
    ensures ResultsWereCalled(w')
  {
    var Writing(p, base, e) := w.tasks[id];
    hide GoodStore, TaskOk, CallOk, OneCallPerClaim, AfterAppend, AppendAnswer, LogCalled, Called, StoreOk;
    assert TaskOk(cfg, w.logs, w.tasks[id]);
    AppendKeepsGood(cfg, w.logs, p, base, e);
    RefusedLeaves(w.logs, p, e);
    AcceptedAtEnd(w.logs, p, e);
    if AppendAnswer(w.logs, p, e.submissionId, e.seqNo - 1, e).Ok? {
      ExtendKeepsCalled(w, w'.logs, base, e);
      DropKeepsCalled(w.(logs := w'.logs), id);
    } else {
      DropKeepsCalled(w, id);
    }
  }

  lemma AcceptedAtEnd(logs: Logs, p: Principal, e: Event)
    requires StoreOk(logs)
    ensures AppendAnswer(logs, p, e.submissionId, e.seqNo - 1, e).Ok? ==>
              e.seqNo == (if e.submissionId in logs then |logs[e.submissionId]| else 0) + 1
  {
  }

  lemma ClaimingCalled(cfg: Config, w: World, id: nat, at: Time, w': World)
    requires ConfigOk(cfg) && Inv(cfg, w) && Shaped(w) && id in w.tasks && w.tasks[id].Claiming? && Appends(w, id, at, w')
    requires ResultsWereCalled(w)
    ensures ResultsWereCalled(w')
  {
    var base := w.tasks[id].base;
    hide GoodStore, TaskOk, CallOk, OneCallPerClaim, AfterAppend, AppendAnswer, Grows, Shaped, IdempotencyKey, StateOf, WellFormed;
    hide Claimed, ResultsWereCalled, Called, StoreOk;
    assert TaskOk(cfg, w.logs, Claiming(base));
    ClaimAppend(cfg, w.logs, base, at);
    var claim := Claim(StateOf(base), IdempotencyKey(StateOf(base)).value, at);
    if AppendAnswer(w.logs, SYSTEM, claim.submissionId, claim.seqNo - 1, claim).Ok? {
      ClaimKeepsCalled(w, w'.logs, id, base, claim);
    } else {
      RefusedLeaves(w.logs, SYSTEM, claim);
      DropKeepsCalled(w, id);
    }
  }

  lemma ClaimKeepsCalled(w: World, logs: Logs, id: nat, base: seq<Event>, claim: Event)
    requires ResultsWereCalled(w) && StoreOk(w.logs) && claim.submissionId in w.logs && !IsResult(claim)
    requires AppendAnswer(w.logs, SYSTEM, claim.submissionId, claim.seqNo - 1, claim).Ok?
    requires logs == AfterAppend(w.logs, SYSTEM, claim.submissionId, claim.seqNo - 1, claim)
    ensures ResultsWereCalled(World(logs, w.tasks[id := Calling(base, claim)], w.calls))
  {
    hide AppendAnswer, AfterAppend, ResultsWereCalled, Called, StoreOk;
    AcceptedAtEnd(w.logs, SYSTEM, claim);
    AcceptedIsExtended(w.logs, SYSTEM, claim);
    ExtendKeepsCalled(w, logs, w.logs[claim.submissionId], claim);
    TaskKeepsCalled(w.(logs := logs), id, Calling(base, claim));
  }

  lemma AcceptedIsExtended(logs: Logs, p: Principal, e: Event)
    requires StoreOk(logs) && AppendAnswer(logs, p, e.submissionId, e.seqNo - 1, e).Ok? && e.submissionId in logs
    ensures AfterAppend(logs, p, e.submissionId, e.seqNo - 1, e) == logs[e.submissionId := logs[e.submissionId] + [e]]
  {
    hide AppendAnswer;
  }

  lemma HearCalled(cfg: Config, w: World, id: nat, answer: Answer, at: Time, w': World)
    requires ConfigOk(cfg) && Inv(cfg, w) && Shaped(w) && Next(cfg, w, Hear(id, answer, at), w') && ResultsWereCalled(w)
    ensures ResultsWereCalled(w')
  {
    hide GoodStore, CallOk, OneCallPerClaim, StateOf, WellFormed, LogCalled, Called, IdempotencyKey, OnLog;
    var Awaiting(base, claim) := w.tasks[id];
    assert TaskOk(cfg, w.logs, w.tasks[id]) && TaskCalled(w.calls, w.tasks[id]);
    var report := Report(StateOf(base), answer, cfg.maxAttempts, at);
    if report.None? {
      DropKeepsCalled(w, id);
    } else {
      TaskKeepsCalled(w, id, Writing(SYSTEM, base + [claim], report.value));
    }
  }

  /** One step of any process keeps it. */
  lemma NextKeepsCalled(cfg: Config, w: World, s: Step, w': World)
    requires ConfigOk(cfg) && Inv(cfg, w) && Shaped(w) && Next(cfg, w, s, w') && ResultsWereCalled(w)
    ensures ResultsWereCalled(w')
  {
    hide Appends, Inv, IdempotencyKey, BuildPayload, StateOf, Decide, IsWork, Report, Admission, ResultsWereCalled;
    match s {
      case Append(id, at) =>
        if w.tasks[id].Writing? {
          WritingCalled(cfg, w, id, at, w');
        } else {
          AppendingTask(w, id, at, w');
          ClaimingCalled(cfg, w, id, at, w');
        }
      case CallCpi(id) =>
        var Calling(base, claim) := w.tasks[id];
        CallKeepsCalled(w, id, base, claim, CallFor(base, claim));
      case Hear(id, answer, at) => HearCalled(cfg, w, id, answer, at, w');
      case Crash(id) => DropKeepsCalled(w, id);
      case Command(id, p, sid, expected, cmd, at) =>
        DecidedIsNoResult(cfg, p, w.logs[sid], expected, cmd, at);
        TaskKeepsCalled(w, id, w'.tasks[id]);
      case _ => TaskKeepsCalled(w, s.id, w'.tasks[s.id]);
    }
  }

  /** In every run, every result in a log and every result about to be written comes from a call. */
  lemma {:induction false} ResultsComeFromCalls(cfg: Config, worlds: seq<World>, steps: seq<Step>, n: nat)
    requires ConfigOk(cfg) && IsRun(cfg, worlds, steps) && n <= |steps|
    ensures ResultsWereCalled(worlds[n])
  {
    hide Next, Inv, Shaped, ResultsWereCalled;
    if n > 0 {
      ResultsComeFromCalls(cfg, worlds, steps, n - 1);
      RunsKeepInv(cfg, worlds, steps, n - 1);
      assert Next(cfg, worlds[n - 1], steps[n - 1], worlds[n - 1 + 1]);
      NextKeepsCalled(cfg, worlds[n - 1], steps[n - 1], worlds[n]);
    } else {
      StartCalled();
    }
  }

  lemma StartCalled()
    ensures ResultsWereCalled(START)
  {
  }

  // ------------------------------------------ what a log tells of its validations

  /** The result at index `i` answers an attempt for the validation at `v`. */
  predicate Answers(log: seq<Event>, i: int, v: int)
    requires WellFormed(log)
  {
    && 1 < v <= i - 1 < i < |log| && IsResult(log[i]) && log[i - 1].payload.CpiDispatched?
    && WellFormed(log[..i - 1]) && StateOf(log[..i - 1]).validatedSeq == Some(v)
  }

  /** A result, wherever it stands, answers the validation that was in force. */
  lemma ResultAnswers(cfg: Config, log: seq<Event>, i: nat)
    requires ConfigOk(cfg) && GoodLog(cfg, log) && i < |log| && IsResult(log[i])
    ensures WellFormed(log[..i]) && StateOf(log[..i]).validatedSeq.Some? && Answers(log, i, StateOf(log[..i]).validatedSeq.value)
  {
    hide StateOf, LegalNext;
    ResultsFollowClaims(cfg, log, i);
    GoodPrefix(cfg, log, i - 1);
    ClaimState(cfg, log[..i - 1], log[i - 1]);
    ValidationPosition(log[..i - 1]);
    AfterClaim(log, i - 1);
  }

  lemma AnswersLater(log: seq<Event>, i: int, v: int)
    requires WellFormed(log) && |log| > 1 && WellFormed(log[..|log| - 1]) && Answers(log[..|log| - 1], i, v)
    ensures Answers(log, i, v)
  {
    hide StateOf, WellFormed;
    var init := log[..|log| - 1];
    assert init[i] == log[i] && init[i - 1] == log[i - 1] && init[..i - 1] == log[..i - 1];
  }

  lemma ValidationKept(log: seq<Event>)
    requires WellFormed(log) && |log| > 1 && !log[|log| - 1].payload.Validated?
    ensures WellFormed(log[..|log| - 1]) && StateOf(log).validatedSeq == StateOf(log[..|log| - 1]).validatedSeq
  {
    hide StateOf;
    WellFormedPrefix(log, |log| - 1);
    assert log[..|log|] == log;
    OneLater(log, |log| - 1);
  }

  /** A request that is done or has failed has had a result for its latest validation. */
  lemma {:induction false} FinishedWasAnswered(cfg: Config, log: seq<Event>) returns (i: nat)
    requires ConfigOk(cfg) && GoodLog(cfg, log) && (StateOf(log).status.CPI_DONE? || StateOf(log).status.CPI_FAILED?)
    ensures StateOf(log).validatedSeq.Some? && Answers(log, i, StateOf(log).validatedSeq.value)
  {
    hide StateOf, LegalNext, Apply, Answers;
    assert |log| > 1 by { StatusFactsHold(cfg, log); }
    LastEdge(cfg, log);
    ValidationKept(log);
    if IsResult(log[|log| - 1]) {
      i := |log| - 1;
      ResultAnswers(cfg, log, i);
    } else {
      i := FinishedWasAnswered(cfg, log[..|log| - 1]);
      AnswersLater(log, i, StateOf(log).validatedSeq.value);
    }
  }

  /** Review validates again only after a failure, so every validation but the latest has had a result. */
  lemma {:induction false} EarlierWasAnswered(cfg: Config, log: seq<Event>, v: int) returns (i: nat)
    requires ConfigOk(cfg) && GoodLog(cfg, log) && v in ValidationSeqs(log) && StateOf(log).validatedSeq != Some(v)
    ensures Answers(log, i, v)
  {
    hide StateOf, LegalNext, Apply, Answers;
    var init, last := log[..|log| - 1], log[|log| - 1];
    assert |log| > 1;
    LastEdge(cfg, log);
    ValidationPosition(init);
    if last.payload.Validated? {
      LastValidation(log);
      ValidatedWhenReleased(cfg, init);
      EarlierSeqs(log, v);
      if StateOf(init).validatedSeq == Some(v) {
        i := FinishedWasAnswered(cfg, init);
      } else {
        i := EarlierWasAnswered(cfg, init, v);
      }
    } else {
      ValidationKept(log);
      EarlierSeqs(log, v);
      i := EarlierWasAnswered(cfg, init, v);
    }
    AnswersLater(log, i, v);
  }

  lemma LastValidation(log: seq<Event>)
    requires WellFormed(log) && |log| > 1 && log[|log| - 1].payload.Validated?
    ensures StateOf(log).validatedSeq == Some(|log|)
  {
  }

  lemma EarlierSeqs(log: seq<Event>, v: int)
    requires v in ValidationSeqs(log) && |log| > 0 && (v != |log| || !log[|log| - 1].payload.Validated?)
    ensures v in ValidationSeqs(log[..|log| - 1])
  {
    var init := log[..|log| - 1];
    assert init[v - 1] == log[v - 1];
  }

  // --------------------------------------------------------------- counting keys

  /** An answered validation was called. */
  lemma AnsweredIsCalled(cfg: Config, w: World, sid: string, i: nat, v: int)
    requires ConfigOk(cfg) && Inv(cfg, w) && ResultsWereCalled(w) && sid in w.logs
    requires WellFormed(w.logs[sid]) && Answers(w.logs[sid], i, v)
    ensures v in CalledFor(w, sid)
  {
    hide KeyText, StateOf, BuildPayload, GoodLog, TaskOk, TaskCalled, Sends;
    var log := w.logs[sid];
    assert LogCalled(w.calls, sid, log);
    var k :| 0 <= k < |w.calls| && w.calls[k].sid == sid && w.calls[k].claimSeq == i;
    assert CallOk(w.logs, w.calls[k]);
    var u := CallIsFor(cfg, w.logs, w.calls[k]);
    assert u == v;
  }

  /** The latest validation has not been called (yet). */
  predicate CurrentUncalled(w: World, sid: string)
    requires sid in w.logs && WellFormed(w.logs[sid])
  {
    match StateOf(w.logs[sid]).validatedSeq
    case None => false
    case Some(v) => v < 0 || KeyText(sid, v) !in KeysOf(w.calls, sid)
  }

  /** Every validation was called, but perhaps the latest. */
  lemma CalledButTheLatest(cfg: Config, w: World, sid: string)
    requires ConfigOk(cfg) && Inv(cfg, w) && ResultsWereCalled(w) && sid in w.logs && WellFormed(w.logs[sid])
    ensures var all, current := ValidationSeqs(w.logs[sid]), StateOf(w.logs[sid]).validatedSeq;
            && (current.Some? ==> current.value in all)
            && CalledFor(w, sid) == if CurrentUncalled(w, sid) then all - {current.value} else all
  {
    hide KeyText, StateOf, GoodLog, TaskOk, CallOk, ResultsWereCalled, Answers, KeysOf, OneCallPerClaim;
    var log := w.logs[sid];
    ValidationPosition(log);
    forall v <- ValidationSeqs(log) | StateOf(log).validatedSeq != Some(v)
      ensures v in CalledFor(w, sid)
    {
      var i := EarlierWasAnswered(cfg, log, v);
      AnsweredIsCalled(cfg, w, sid, i, v);
    }
    if StateOf(log).validatedSeq.Some? {
      CurrentCalledIff(cfg, w, sid, StateOf(log).validatedSeq.value);
    }
  }

  lemma CurrentCalledIff(cfg: Config, w: World, sid: string, v: nat)
    requires ConfigOk(cfg) && Inv(cfg, w) && sid in w.logs
    ensures v in CalledFor(w, sid) <==> KeyText(sid, v) in KeysOf(w.calls, sid)
  {
    hide KeyText, Inv, KeysOf, CalledFor;
    KeysAreOfCalled(cfg, w, sid);
    if KeyText(sid, v) in KeysOf(w.calls, sid) {
      var u :| u in CalledFor(w, sid) && u >= 0 && KeyText(sid, u) == KeyText(sid, v);
      KeysDistinct(sid, u, sid, v);
    }
  }

  /** CPI sees one key for every validation in the log, but for the latest one while that has not been called. */
  lemma KeysAreCounted(cfg: Config, worlds: seq<World>, steps: seq<Step>, sid: string)
    requires ConfigOk(cfg) && IsRun(cfg, worlds, steps) && sid in worlds[|steps|].logs
    ensures var w := worlds[|steps|];
            && WellFormed(w.logs[sid])
            && |KeysOf(w.calls, sid)| == |ValidationSeqs(w.logs[sid])| - if CurrentUncalled(w, sid) then 1 else 0
  {
    hide Next, Shaped, Inv, KeysOf, CalledFor, ValidationSeqs, StateOf, ResultsWereCalled, KeyText;
    RunsKeepInv(cfg, worlds, steps, |steps|);
    ResultsComeFromCalls(cfg, worlds, steps, |steps|);
    var w := worlds[|steps|];
    InvHolds(cfg, w);
    KeysAreOfCalled(cfg, w, sid);
    CalledButTheLatest(cfg, w, sid);
  }

  // ------------------------------------------------------- what the log decides

  /** A result of the latest validation has been written. */
  predicate Reported(log: seq<Event>)
    requires WellFormed(log)
  {
    StateOf(log).validatedSeq.Some? && exists i :: 0 <= i < |log| && StateOf(log).validatedSeq.value <= i && IsResult(log[i])
  }

  /** The latest validation has not been claimed. */
  predicate Unclaimed(log: seq<Event>)
    requires WellFormed(log)
  {
    && StateOf(log).validatedSeq.Some?
    && forall i :: 0 <= i < |log| && StateOf(log).validatedSeq.value <= i ==> !log[i].payload.CpiDispatched?
  }

  lemma {:induction false} InForceSince(log: seq<Event>, v: nat, i: nat)
    requires WellFormed(log) && StateOf(log).validatedSeq == Some(v) && v <= i <= |log|
    ensures 1 <= i && WellFormed(log[..i]) && StateOf(log[..i]).validatedSeq == Some(v)
  {
    hide StateOf;
    ValidationPosition(log);
    if i == |log| {
      assert log[..i] == log;
    } else {
      if log[|log| - 1].payload.Validated? {
        LastValidation(log);
      }
      ValidationKept(log);
      InForceSince(log[..|log| - 1], v, i);
      assert log[..|log| - 1][..i] == log[..i];
    }
  }

  /** A latest validation that is reported was called; one that is unclaimed was not. */
  lemma LatestCalled(cfg: Config, w: World, sid: string)
    requires ConfigOk(cfg) && Inv(cfg, w) && ResultsWereCalled(w) && sid in w.logs && WellFormed(w.logs[sid])
    ensures Reported(w.logs[sid]) ==> !CurrentUncalled(w, sid)
    ensures Unclaimed(w.logs[sid]) ==> CurrentUncalled(w, sid)
  {
    hide KeyText, StateOf, GoodLog, TaskOk, ResultsWereCalled, Answers, KeysOf, OneCallPerClaim, BuildPayload;
    var log := w.logs[sid];
    ValidationPosition(log);
    if StateOf(log).validatedSeq.Some? {
      var v := StateOf(log).validatedSeq.value;
      CurrentCalledIff(cfg, w, sid, v);
      if Reported(log) {
        var i :| 0 <= i < |log| && v <= i && IsResult(log[i]);
        InForceSince(log, v, i);
        ResultAnswers(cfg, log, i);
        AnsweredIsCalled(cfg, w, sid, i, v);
      }
      if v in CalledFor(w, sid) {
        var k :| 0 <= k < |w.calls| && w.calls[k].sid == sid && IsFor(w.logs, w.calls[k], v);
        assert CallOk(w.logs, w.calls[k]);
        assert log[w.calls[k].claimSeq - 1].payload.CpiDispatched?;
      }
    }
  }

  /** A log tells which it is, unless an attempt of the latest validation is in flight and none has been reported. */
  lemma StatusTells(cfg: Config, log: seq<Event>)
    requires ConfigOk(cfg) && GoodLog(cfg, log)
    ensures match StateOf(log).status
            case SUBMITTED => StateOf(log).validatedSeq.None?
            case VALIDATED => Unclaimed(log)
            case CPI_PENDING => StateOf(log).cpiError.Some? ==> Reported(log)
            case _ => Reported(log)
  {
    hide StateOf, LegalNext, Answers;
    StatusFactsHold(cfg, log);
    ValidatedWhenReleased(cfg, log);
    var sub := StateOf(log);
    match sub.status {
      case SUBMITTED =>
      case VALIDATED => ValidatedLast(log);
      case CPI_PENDING =>
        ErrorSinceValidation(cfg, log);
      case _ =>
        var i := FinishedWasAnswered(cfg, log);
        AnswersReport(log, i);
    }
  }

  lemma ValidatedLast(log: seq<Event>)
    requires WellFormed(log) && log[|log| - 1].payload.Validated?
    ensures StateOf(log).validatedSeq == Some(|log|)
  {
    assert |log| > 1;
    LastValidation(log);
  }

  lemma AnswersReport(log: seq<Event>, i: int)
    requires WellFormed(log) && StateOf(log).validatedSeq.Some? && Answers(log, i, StateOf(log).validatedSeq.value)
    ensures Reported(log)
  {
    hide StateOf;
  }

  /**
   A submission is sent under one key at most exactly when it was validated at most once, or twice and the second
   validation is not called yet; the log tells which unless an unreported attempt of it is in flight.
   */
  lemma OneKeyIff(cfg: Config, worlds: seq<World>, steps: seq<Step>, sid: string)
    requires ConfigOk(cfg) && IsRun(cfg, worlds, steps) && sid in worlds[|steps|].logs
    ensures var w := worlds[|steps|];
            var log, keys, validations := w.logs[sid], |KeysOf(w.calls, sid)|, |ValidationSeqs(w.logs[sid])|;
            && WellFormed(log)
            && (keys <= 1 <==> validations <= 1 || (validations == 2 && CurrentUncalled(w, sid)))
            && (Reported(log) ==> (keys <= 1 <==> validations <= 1))
            && (Unclaimed(log) ==> (keys <= 1 <==> validations <= 2))
  {
    hide Next, Shaped, Inv, KeysOf, ValidationSeqs, StateOf, ResultsWereCalled, CurrentUncalled, Reported, Unclaimed;
    KeysAreCounted(cfg, worlds, steps, sid);
    RunsKeepInv(cfg, worlds, steps, |steps|);
    ResultsComeFromCalls(cfg, worlds, steps, |steps|);
    LatestCalled(cfg, worlds[|steps|], sid);
  }
}
