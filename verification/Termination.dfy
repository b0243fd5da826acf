/** Crash-free rounds of the dispatch job finish every released request that they get to see often enough. */
module Termination {
  import opened Prelude
  import opened Events
  import opened Folding
  import opened Repository
  import opened Listing
  import opened Services
  import opened Dispatch
  import opened Protocol
  import opened Runs
  import opened Liveness

  predicate Finished(log: seq<Event>)
    requires WellFormed(log)
  {
    StateOf(log).status.CPI_DONE? || StateOf(log).status.CPI_FAILED?
  }

  /** No runner has died on a claim: the last one was reported. */
  predicate Settled(log: seq<Event>)
    requires WellFormed(log)
  {
    StateOf(log).status.CPI_PENDING? ==> !log[|log| - 1].payload.CpiDispatched?
  }

  /** Attempts left to a released request. */
  function AttemptsLeft(cfg: Config, log: seq<Event>): int
    requires WellFormed(log)
  {
    if Released(log) then cfg.maxAttempts - StateOf(log).cpiAttempts else 0
  }

  /** A settled released request has attempts left, and every run that sees it picks it. */
  lemma SettledIsPicked(cfg: Config, logs: Logs, sid: string, staleAfter: int, now: Time)
    requires ConfigOk(cfg) && StoreOk(logs) && sid in logs && GoodLog(cfg, logs[sid]) && Settled(logs[sid]) && Released(logs[sid])
    ensures AttemptsLeft(cfg, logs[sid]) >= 1
    ensures Picks(cfg.store, logs, sid, cfg.maxAttempts, staleAfter, now) <==> InSight(cfg.store, logs, sid, WORK_LIMIT)
  {
    hide StateOf, LegalNext, InSight;
    StatusFactsHold(cfg, logs[sid]);
  }

  lemma DispatchedIsGood(cfg: Config, log: seq<Event>, answer: Answer, claimAt: Time, reportAt: Time)
    requires ConfigOk(cfg) && GoodLog(cfg, log) && Claimable(StateOf(log), cfg.maxAttempts) && IdempotencyKey(StateOf(log)).Some?
    ensures GoodLog(cfg, Dispatched(log, answer, cfg.maxAttempts, claimAt, reportAt))
  {
    hide StateOf, LegalNext, GoodLog, IdempotencyKey, Report;
    assert WellFormed(log) by { GoodIsWellFormed(cfg, log); }
    ClaimIsLegal(cfg, log, claimAt);
    var sub, key := StateOf(log), IdempotencyKey(StateOf(log)).value;
    var claim := Claim(sub, key, claimAt);
    GoodExtend(cfg, log, claim);
    ReportIsLegal(cfg, log, key, answer, claimAt, reportAt);
    var report := Report(sub, answer, cfg.maxAttempts, reportAt);
    if report.Some? {
      GoodExtend(cfg, log + [claim], report.value);
    } else {
      assert log + [claim] + [] == log + [claim];
    }
  }

  lemma GoodIsWellFormed(cfg: Config, log: seq<Event>)
    requires ConfigOk(cfg) && GoodLog(cfg, log)
    ensures WellFormed(log)
  {
  }

  /** The state after a dispatch that was answered. */
  lemma DispatchedState(cfg: Config, log: seq<Event>, answer: Answer, claimAt: Time, reportAt: Time)
    requires ConfigOk(cfg) && WellFormed(log) && IdempotencyKey(StateOf(log)).Some? && !answer.Explodes?
    ensures var after := Dispatched(log, answer, cfg.maxAttempts, claimAt, reportAt);
            && WellFormed(after) && Settled(after)
            && (Finished(after) || (Released(after) && StateOf(after).cpiAttempts == StateOf(log).cpiAttempts + 1))
  {
    hide StateOf;
    DispatchedWellFormed(log, answer, cfg.maxAttempts, claimAt, reportAt);
    FoldedPosition(log);
    FoldedProvenance(log);
    var sub := StateOf(log);
    var claim := Claim(sub, IdempotencyKey(sub).value, claimAt);
    WellFormedExtend(log, claim);
    WellFormedExtend(log + [claim], Report(sub, answer, cfg.maxAttempts, reportAt).value);
  }

  /** One dispatch of a settled released request finishes it or uses up one attempt, and leaves it settled. */
  lemma DispatchMakesProgress(cfg: Config, before: seq<Event>, after: seq<Event>)
    requires ConfigOk(cfg) && GoodLog(cfg, before) && Settled(before) && Released(before)
    requires IdempotencyKey(StateOf(before)).Some? && DispatchedOnce(before, after, cfg.maxAttempts)
    ensures GoodLog(cfg, after) && Settled(after)
    ensures Finished(after) || (Released(after) && AttemptsLeft(cfg, after) == AttemptsLeft(cfg, before) - 1)
  {
    hide StateOf, LegalNext, Dispatched;
    StatusFactsHold(cfg, before);
    var answer, claimAt, reportAt :|
      after == Dispatched(before, answer, cfg.maxAttempts, claimAt, reportAt) && !answer.Explodes?;
    DispatchedIsGood(cfg, before, answer, claimAt, reportAt);
    DispatchedState(cfg, before, answer, claimAt, reportAt);
  }

  // ------------------------------------------------------------------ rounds

  /** What one round of the job found and what it left. */
  datatype Round = Round(before: Logs, after: Logs, now: Time)

  /** The round dispatches this submission, if it picks it, and otherwise leaves it to the job. */
  ghost predicate RoundFor(cfg: Config, r: Round, staleAfter: int, sid: string) {
    && StoreOk(r.before) && StoreOk(r.after) && Grows(r.before, r.after)
    && (sid in r.before ==>
          if Picks(cfg.store, r.before, sid, cfg.maxAttempts, staleAfter, r.now) then
            && IdempotencyKey(StateOf(r.before[sid])).Some?
            && DispatchedOnce(r.before[sid], r.after[sid], cfg.maxAttempts)
          else Released(r.before[sid]) ==> r.after[sid] == r.before[sid])
  }

  /** Between rounds a released submission is left as it is. */
  ghost predicate Rounds(cfg: Config, rounds: seq<Round>, staleAfter: int, sid: string) {
    && (forall i :: 0 <= i < |rounds| ==> RoundFor(cfg, rounds[i], staleAfter, sid))
    && (forall i :: 0 < i < |rounds| ==>
          && Grows(rounds[i - 1].after, rounds[i].before)
          && (sid in rounds[i - 1].after && Released(rounds[i - 1].after[sid]) ==>
                rounds[i].before[sid] == rounds[i - 1].after[sid]))
  }

  /** The number of the first `n` rounds that see the submission. */
  function Sightings(cfg: Config, rounds: seq<Round>, n: nat, sid: string): nat
    requires n <= |rounds| && forall i :: 0 <= i < |rounds| ==> StoreOk(rounds[i].before) && sid in rounds[i].before
  {
    if n == 0 then 0
    else Sightings(cfg, rounds, n - 1, sid) + if InSight(cfg.store, rounds[n - 1].before, sid, WORK_LIMIT) then 1 else 0
  }

  /** The submission has finished in one of the first `n` rounds. */
  predicate FinishedBy(rounds: seq<Round>, n: nat, sid: string)
    requires n <= |rounds|
  {
    exists k :: 0 <= k < n && sid in rounds[k].after && WellFormed(rounds[k].after[sid]) && Finished(rounds[k].after[sid])
  }

  lemma {:induction false} StaysListed(cfg: Config, rounds: seq<Round>, staleAfter: int, n: nat, sid: string)
    requires Rounds(cfg, rounds, staleAfter, sid) && n < |rounds| && sid in rounds[0].before
    ensures sid in rounds[n].before && sid in rounds[n].after && Grows(rounds[0].before, rounds[n].before)
  {
    hide StateOf, DispatchedOnce, IdempotencyKey, Picks, Released, WellFormed;
    if n > 0 {
      StaysListed(cfg, rounds, staleAfter, n - 1, sid);
      assert RoundFor(cfg, rounds[n - 1], staleAfter, sid);
      assert Grows(rounds[n - 1].after, rounds[n].before);
    }
    assert RoundFor(cfg, rounds[n], staleAfter, sid);
  }

  /** A request on its way: released, settled, and good. */
  predicate OnItsWay(cfg: Config, logs: Logs, sid: string)
    requires cfg.spec.Loaded()
  {
    sid in logs && GoodLog(cfg, logs[sid]) && Released(logs[sid]) && Settled(logs[sid])
  }

  /** One round finishes a request, or uses up one of its attempts, if and only if it sees it. */
  lemma RoundProgress(cfg: Config, r: Round, staleAfter: int, sid: string)
    requires ConfigOk(cfg) && RoundFor(cfg, r, staleAfter, sid) && OnItsWay(cfg, r.before, sid)
    ensures sid in r.after && WellFormed(r.after[sid]) && 1 <= AttemptsLeft(cfg, r.before[sid]) <= cfg.maxAttempts
    ensures if InSight(cfg.store, r.before, sid, WORK_LIMIT) then
              || Finished(r.after[sid])
              || (OnItsWay(cfg, r.after, sid) && AttemptsLeft(cfg, r.after[sid]) == AttemptsLeft(cfg, r.before[sid]) - 1)
            else r.after[sid] == r.before[sid]
  {
    hide StateOf, DispatchedOnce, LegalNext, IdempotencyKey, InSight;
    StatusFactsHold(cfg, r.before[sid]);
    SettledIsPicked(cfg, r.before, sid, staleAfter, r.now);
    if InSight(cfg.store, r.before, sid, WORK_LIMIT) {
      DispatchMakesProgress(cfg, r.before[sid], r.after[sid]);
    }
  }

  lemma {:induction false} AttemptsRunOut(cfg: Config, rounds: seq<Round>, staleAfter: int, n: nat, sid: string)
    requires ConfigOk(cfg) && Rounds(cfg, rounds, staleAfter, sid) && 1 <= n <= |rounds| && OnItsWay(cfg, rounds[0].before, sid)
    requires forall i :: 0 <= i < |rounds| ==> StoreOk(rounds[i].before) && sid in rounds[i].before
    ensures FinishedBy(rounds, n, sid)
            || (&& OnItsWay(cfg, rounds[n - 1].after, sid)
                && AttemptsLeft(cfg, rounds[n - 1].after[sid]) <= cfg.maxAttempts - Sightings(cfg, rounds, n, sid))
  {
    hide StateOf, DispatchedOnce, GoodLog, IdempotencyKey, Picks, InSight, Released, Settled, WellFormed;
    if n > 1 {
      AttemptsRunOut(cfg, rounds, staleAfter, n - 1, sid);
    }
    if n == 1 || !FinishedBy(rounds, n - 1, sid) {
      assert RoundFor(cfg, rounds[n - 1], staleAfter, sid);
      assert OnItsWay(cfg, rounds[n - 1].before, sid);
      RoundProgress(cfg, rounds[n - 1], staleAfter, sid);
    }
  }

  /** A released settled request has finished once as many rounds have seen it as it has attempts, whatever CPI answers. */
  lemma RequestsFinish(cfg: Config, rounds: seq<Round>, staleAfter: int, sid: string)
    requires ConfigOk(cfg) && Rounds(cfg, rounds, staleAfter, sid) && |rounds| > 0 && OnItsWay(cfg, rounds[0].before, sid)
    requires forall i :: 0 <= i < |rounds| ==> StoreOk(rounds[i].before) && sid in rounds[i].before
    requires Sightings(cfg, rounds, |rounds|, sid) >= cfg.maxAttempts
    ensures FinishedBy(rounds, |rounds|, sid)
  {
    hide StateOf, LegalNext, Rounds, InSight, GoodLog;
    AttemptsRunOut(cfg, rounds, staleAfter, |rounds|, sid);
    if !FinishedBy(rounds, |rounds|, sid) {
      LeftIsPositive(cfg, rounds[|rounds| - 1].after, sid);
    }
  }

  lemma LeftIsPositive(cfg: Config, logs: Logs, sid: string)
    requires ConfigOk(cfg) && OnItsWay(cfg, logs, sid)
    ensures WellFormed(logs[sid]) && AttemptsLeft(cfg, logs[sid]) >= 1
  {
    hide StateOf, LegalNext;
    StatusFactsHold(cfg, logs[sid]);
  }

  /** Over SQL, a request behind too many newer ones is never dispatched, however many rounds there are. */
  lemma {:induction false} StarvedIsLeft(cfg: Config, rounds: seq<Round>, staleAfter: int, n: nat, sid: string)
    requires ConfigOk(cfg) && Rounds(cfg, rounds, staleAfter, sid) && n < |rounds| && OnItsWay(cfg, rounds[0].before, sid)
    requires StoreOk(rounds[0].before) && PastCandidates(cfg, rounds[0].before, sid)
    ensures sid in rounds[n].after && rounds[n].after[sid] == rounds[0].before[sid]
  {
    hide StateOf, DispatchedOnce, IdempotencyKey, NewerIds, RivalIds, WellFormed, Settled, Released, IsWork, GoodLog;
    StaysListed(cfg, rounds, staleAfter, n, sid);
    assert RoundFor(cfg, rounds[n], staleAfter, sid);
    NewerIdsGrow(rounds[0].before, rounds[n].before, sid);
    if n > 0 {
      StarvedIsLeft(cfg, rounds, staleAfter, n - 1, sid);
    }
  }

  // ------------------------------------------------------ one run on its own

  lemma GoodWorkIsKeyed(cfg: Config, logs: Logs, staleAfter: int, now: Time)
    requires ConfigOk(cfg) && StoreOk(logs) && GoodStore(cfg, logs)
    ensures AllKeyed(Work(cfg.store, logs, cfg.maxAttempts, staleAfter, now))
  {
    hide StateOf, Work, InSight, WellFormed;
    WorkIsExact(cfg.store, logs, cfg.maxAttempts, staleAfter, now);
    var work := Work(cfg.store, logs, cfg.maxAttempts, staleAfter, now);
    forall sub <- work
      ensures IdempotencyKey(sub).Some?
    {
      ClaimIsLegal(cfg, logs[sub.submissionId], now);
    }
  }

  /** What `RunOnce` does to a good store is a round for every submission, and leaves a good store. */
  lemma RunIsRound(
      cfg: Config, before: Logs, script: seq<Answer>, after: Logs, staleAfter: int, now: Time)
    requires ConfigOk(cfg) && StoreOk(before) && GoodStore(cfg, before)
    requires var work := Work(cfg.store, before, cfg.maxAttempts, staleAfter, now);
             && IsWorkOf(before, work) && CrashFree(script, |CallsFor(work)|)
             && PartRun(before, work, |work|, script, after, cfg.maxAttempts, now)
    ensures RanOnce(cfg.store, before, after, cfg.maxAttempts, staleAfter, now)
    ensures GoodStore(cfg, after)
    ensures forall sid :: RoundFor(cfg, Round(before, after, now), staleAfter, sid)
  {
    hide Work, PartRun, GoodStore, CallsFor, RanOnce, RoundFor, IsWorkOf, Picks;
    var work := Work(cfg.store, before, cfg.maxAttempts, staleAfter, now);
    GoodWorkIsKeyed(cfg, before, staleAfter, now);
    WorkIsExact(cfg.store, before, cfg.maxAttempts, staleAfter, now);
    WholeRun(cfg.store, before, work, script, after, cfg.maxAttempts, staleAfter, now);
    RanOnceKeepsGood(cfg, before, after, staleAfter, now);
    GoodStoreIsOk(cfg, after);
    forall sid
      ensures RoundFor(cfg, Round(before, after, now), staleAfter, sid)
    {
      RanOnceIsRound(cfg, before, after, staleAfter, now, sid);
    }
  }

  lemma DispatchedOnceGrows(cfg: Config, before: seq<Event>, after: seq<Event>)
    requires ConfigOk(cfg) && GoodLog(cfg, before) && Claimable(StateOf(before), cfg.maxAttempts)
    requires IdempotencyKey(StateOf(before)).Some? && DispatchedOnce(before, after, cfg.maxAttempts)
    ensures GoodLog(cfg, after) && before <= after && after[0] == before[0]
  {
    hide StateOf, LegalNext, IdempotencyKey;
    var answer, claimAt, reportAt :|
      after == Dispatched(before, answer, cfg.maxAttempts, claimAt, reportAt) && !answer.Explodes?;
    DispatchedIsGood(cfg, before, answer, claimAt, reportAt);
  }

  lemma RanOnceKeepsGood(cfg: Config, before: Logs, after: Logs, staleAfter: int, now: Time)
    requires ConfigOk(cfg) && StoreOk(before) && GoodStore(cfg, before)
    requires RanOnce(cfg.store, before, after, cfg.maxAttempts, staleAfter, now)
    ensures GoodStore(cfg, after) && Grows(before, after)
  {
    hide StateOf, DispatchedOnce, IdempotencyKey, InSight, GoodLog, WellFormed;
    forall sid <- after
      ensures GoodLog(cfg, after[sid]) && |after[sid]| > 0 && after[sid][0].submissionId == sid && before[sid] <= after[sid]
    {
      assert sid in before && GoodLog(cfg, before[sid]) && |before[sid]| > 0 by { NotEmpty(before, sid); }
      if Picks(cfg.store, before, sid, cfg.maxAttempts, staleAfter, now) {
        DispatchedOnceGrows(cfg, before[sid], after[sid]);
      }
    }
  }

  lemma NotEmpty(logs: Logs, sid: string)
    requires StoreOk(logs)
    ensures sid in logs ==> |logs[sid]| > 0
  {
  }

  lemma RanOnceIsRound(cfg: Config, before: Logs, after: Logs, staleAfter: int, now: Time, sid: string)
    requires ConfigOk(cfg) && StoreOk(before) && StoreOk(after) && Grows(before, after)
    requires RanOnce(cfg.store, before, after, cfg.maxAttempts, staleAfter, now)
    ensures RoundFor(cfg, Round(before, after, now), staleAfter, sid)
  {
    hide StateOf, DispatchedOnce, IdempotencyKey, Picks, WellFormed;
  }

  // ---------------------------------------------------- runs with nobody else

  function ReleasedIds(logs: Logs): set<string>
    requires StoreOk(logs)
  {
    set sid | sid in logs && Released(logs[sid])
  }

  ghost predicate QuietRounds(cfg: Config, rounds: seq<Round>, staleAfter: int)
    requires cfg.spec.Loaded()
  {
    && |rounds| > 0
    && (forall i :: 0 <= i < |rounds| ==>
          && StoreOk(rounds[i].before) && GoodStore(cfg, rounds[i].before) && StoreOk(rounds[i].after)
          && RanOnce(cfg.store, rounds[i].before, rounds[i].after, cfg.maxAttempts, staleAfter, rounds[i].now))
    && forall i :: 0 < i < |rounds| ==> rounds[i].before == rounds[i - 1].after
  }

  lemma QuietRound(cfg: Config, r: Round, staleAfter: int, sid: string)
    requires ConfigOk(cfg) && StoreOk(r.before) && GoodStore(cfg, r.before) && StoreOk(r.after)
    requires RanOnce(cfg.store, r.before, r.after, cfg.maxAttempts, staleAfter, r.now)
    requires |ReleasedIds(r.before)| <= WORK_LIMIT && sid in r.before
    ensures sid in r.after && |ReleasedIds(r.after)| <= WORK_LIMIT
    ensures |NewerIds(r.before, sid)| == |NewerIds(r.after, sid)|
    ensures !Released(r.before[sid]) ==> r.after[sid] == r.before[sid]
    ensures RoundFor(cfg, r, staleAfter, sid)
  {
    hide StateOf, DispatchedOnce, IdempotencyKey, InSight, GoodLog, WellFormed;
    RanOnceKeepsGood(cfg, r.before, r.after, staleAfter, r.now);
    RanOnceIsRound(cfg, r.before, r.after, staleAfter, r.now, sid);
    forall s <- ReleasedIds(r.after)
      ensures s in ReleasedIds(r.before)
    {
      assert !Picks(cfg.store, r.before, s, cfg.maxAttempts, staleAfter, r.now) ==> r.after[s] == r.before[s];
    }
    SubsetSize(ReleasedIds(r.after), ReleasedIds(r.before));
    SameFirsts(r.before, r.after, sid);
  }

  lemma SameFirsts(logs: Logs, logs': Logs, sid: string)
    requires StoreOk(logs) && StoreOk(logs') && Grows(logs, logs') && logs'.Keys == logs.Keys && sid in logs
    ensures NewerIds(logs, sid) == NewerIds(logs', sid)
  {
    forall s <- logs
      ensures s in logs' && logs'[s][0] == logs[s][0]
    {
      assert logs[s] <= logs'[s];
    }
  }

  /** Few released requests are all in sight, the SQL candidates permitting. */
  lemma FewAreInSight(cfg: Config, logs: Logs, sid: string)
    requires StoreOk(logs) && sid in logs && Released(logs[sid]) && |ReleasedIds(logs)| <= WORK_LIMIT
    requires !PastCandidates(cfg, logs, sid)
    ensures InSight(cfg.store, logs, sid, WORK_LIMIT)
  {
    hide StateOf, WellFormed;
    NewerIrreflexive(KeyOf(logs, sid));
    SubsetSize(RivalIds(logs, sid) + {sid}, ReleasedIds(logs));
  }

  lemma {:induction false} QuietCountdown(cfg: Config, rounds: seq<Round>, staleAfter: int, n: nat, sid: string)
    requires ConfigOk(cfg) && QuietRounds(cfg, rounds, staleAfter) && 1 <= n <= |rounds| && OnItsWay(cfg, rounds[0].before, sid)
    requires |ReleasedIds(rounds[0].before)| <= WORK_LIMIT && !PastCandidates(cfg, rounds[0].before, sid)
    ensures var after := rounds[n - 1].after;
            && sid in after && StoreOk(after) && |ReleasedIds(after)| <= WORK_LIMIT && !PastCandidates(cfg, after, sid)
            && WellFormed(after[sid])
            && (Finished(after[sid]) || (OnItsWay(cfg, after, sid) && AttemptsLeft(cfg, after[sid]) <= cfg.maxAttempts - n))
  {
    hide StateOf, GoodLog, InSight, Settled, NewerIds, ReleasedIds, RanOnce, RoundFor, LegalNext;
    var r := rounds[n - 1];
    if n > 1 {
      QuietCountdown(cfg, rounds, staleAfter, n - 1, sid);
      assert r.before == rounds[n - 2].after;
    }
    QuietRound(cfg, r, staleAfter, sid);
    if OnItsWay(cfg, r.before, sid) {
      FewAreInSight(cfg, r.before, sid);
      RoundProgress(cfg, r, staleAfter, sid);
    }
  }

  /** When nobody else writes, none of the released requests a listing can hold is still released after that many runs. */
  lemma QuietRunsFinishAll(cfg: Config, rounds: seq<Round>, staleAfter: int, sid: string)
    requires ConfigOk(cfg) && QuietRounds(cfg, rounds, staleAfter) && |rounds| >= cfg.maxAttempts
    requires OnItsWay(cfg, rounds[0].before, sid)
    requires |ReleasedIds(rounds[0].before)| <= WORK_LIMIT && !PastCandidates(cfg, rounds[0].before, sid)
    ensures var last := rounds[|rounds| - 1].after; sid in last && WellFormed(last[sid]) && Finished(last[sid])
  {
    hide StateOf, QuietRounds, GoodLog, NewerIds, ReleasedIds, LegalNext, Released, Settled;
    QuietCountdown(cfg, rounds, staleAfter, |rounds|, sid);
    var last := rounds[|rounds| - 1].after;
    if !Finished(last[sid]) {
      LeftIsPositive(cfg, last, sid);
    }
  }
}
