/** Runs that end where the exact conditions say something goes wrong: a last claim lost, and a retry in flight picked again. */
module Instances {
  import opened Numerals
  import opened Events
  import opened Folding
  import opened Repository
  import opened Listing
  import opened Validator
  import opened Attachments
  import opened Services
  import opened Intake
  import opened Dispatch
  import opened Protocol
  import opened LogLaws
  import opened Runs
  import opened RunLaws
  import opened Liveness
  import opened Duplicates

  // ------------------------------------------------------------ a lost last claim

  /** The request is with the dispatch job, its last attempt is lost, and no continuation ever appends to it. */
  ghost predicate StuckForGood(cfg: Config, w: World, sid: string)
    requires cfg.spec.Loaded()
  {
    && Shaped(w) && sid in w.logs && Released(w.logs[sid]) && LostLastClaim(cfg, w.logs[sid])
    && forall w' :: Leads(cfg, w, w') ==> sid in w'.logs && w'.logs[sid] == w.logs[sid]
  }

  lemma ClaimCounts(cfg: Config, log: seq<Event>, claim: Event)
    requires WellFormed(log) && Continues(log, claim) && claim.payload.CpiDispatched?
    ensures WellFormed(log + [claim]) && StateOf(log + [claim]).cpiAttempts == StateOf(log).cpiAttempts + 1
    ensures StateOf(log + [claim]).status.CPI_PENDING? && StateOf(log + [claim]).cpiError == StateOf(log).cpiError
    ensures StateOf(log + [claim]).lastEventAt == claim.occurredAt
  {
    hide StateOf;
    WellFormedExtend(log, claim);
  }

  /** A new runner claims the request and dies. */
  lemma ClaimAndDie(cfg: Config, w: World, sid: string) returns (w': World)
    requires ConfigOk(cfg) && Inv(cfg, w) && Shaped(w) && Alone(w, sid) && Released(w.logs[sid])
    requires !w.logs[sid][|w.logs[sid]| - 1].payload.CpiDispatched? && StateOf(w.logs[sid]).cpiAttempts + 1 == cfg.maxAttempts
    ensures Leads(cfg, w, w') && Inv(cfg, w') && Shaped(w') && Alone(w', sid)
    ensures WellFormed(w'.logs[sid]) && LostLastClaim(cfg, w'.logs[sid])
  {
    hide StateOf, Inv, InSight, IdempotencyKey, Leads, AfterAppend, AppendAnswer, WellFormed;
    var log := w.logs[sid];
    AloneIsInSight(cfg.store, w.logs, sid);
    var claim := ClaimLeads(cfg, w, 0, sid);
    ClaimCounts(cfg, log, claim);
    var claimed := World(w.logs[sid := log + [claim]], w.tasks[0 := Calling(log, claim)], w.calls);
    w' := World(claimed.logs, map[], w.calls);
    assert claimed.tasks - {0} == map[];
    assert Next(cfg, claimed, Crash(0), w');
    LeadsOn(cfg, w, claimed, Crash(0), w');
  }

  /** Transient errors use up all attempts but the last, and the runner that claims that one dies. */
  lemma {:induction false} LostClaimLeads(cfg: Config, w: World, sid: string) returns (w': World)
    requires ConfigOk(cfg) && Inv(cfg, w) && Shaped(w) && Alone(w, sid) && Released(w.logs[sid])
    requires !w.logs[sid][|w.logs[sid]| - 1].payload.CpiDispatched?
    ensures Leads(cfg, w, w') && Inv(cfg, w') && Shaped(w') && Alone(w', sid)
    ensures WellFormed(w'.logs[sid]) && LostLastClaim(cfg, w'.logs[sid])
    decreases cfg.maxAttempts - StateOf(w.logs[sid]).cpiAttempts
  {
    hide StateOf, Inv, InSight, Dispatched, KeyText, IdempotencyKey, BuildPayload, Leads, Shaped;
    var log := w.logs[sid];
    InvHolds(cfg, w);
    LeftToSpend(cfg, log);
    if StateOf(log).cpiAttempts + 1 == cfg.maxAttempts {
      w' := ClaimAndDie(cfg, w, sid);
    } else {
      AloneIsInSight(cfg.store, w.logs, sid);
      var claim := DispatchLeads(cfg, w, 0, sid, Transient(""));
      var after := Dispatched(log, Transient(""), cfg.maxAttempts, claim.occurredAt, 0);
      TransientState(cfg, log, claim.occurredAt);
      var next := World(w.logs[sid := after], map[], w.calls + [CallFor(log, claim)]);
      w' := LostClaimLeads(cfg, next, sid);
      LeadsFurther(cfg, w, next, w');
    }
  }

  lemma LostIsStuck(cfg: Config, w: World, sid: string)
    requires ConfigOk(cfg) && Inv(cfg, w) && Shaped(w) && Alone(w, sid) && WellFormed(w.logs[sid]) && LostLastClaim(cfg, w.logs[sid])
    ensures StuckForGood(cfg, w, sid)
  {
    hide StateOf, Inv, Next;
    LostIsPending(cfg, w.logs[sid]);
    assert Quiet(w) && Blocked(cfg, w.logs, sid);
    hide Released, Blocked, Quiet, LostLastClaim;
    forall w' | Leads(cfg, w, w')
      ensures sid in w'.logs && w'.logs[sid] == w.logs[sid]
    {
      var worlds, steps :| PathBetween(cfg, worlds, steps, w, w');
      BlockedForever(cfg, worlds, steps, |steps|, sid);
    }
  }

  /** Whatever request a customer can get accepted, some run leaves it with the job for good. */
  lemma AnyRequestCanGetStuck(
      cfg: Config, p: Principal, raws: Raws, uploads: seq<Upload>, reviewer: Principal, sid: string)
    requires ConfigOk(cfg) && PlainAccounts(p) && Admission(cfg, p, raws, uploads).Some? && reviewer.IsInternal()
    ensures exists worlds: seq<World>, steps :: IsRun(cfg, worlds, steps) && StuckForGood(cfg, worlds[|steps|], sid)
  {
    hide StateOf, Inv, Leads, Admission, StartsReleasable, PlainAccounts, Shaped, StuckForGood;
    var submitted := SubmitLeads(cfg, p, raws, uploads, sid);
    var released := ReleaseLeads(cfg, submitted, reviewer, sid);
    ValidatedEnd(cfg, released, sid);
    var lost := LostClaimLeads(cfg, released, sid);
    LostIsStuck(cfg, lost, sid);
    LeadsFurther(cfg, submitted, released, lost);
    LeadsFurther(cfg, START, submitted, lost);
    LedByRun(cfg, lost);
  }

  // ---------------------------------------------------------- a retry in flight

  /** A runner holds a claim made just now, and the request is picked again at once, whatever the stale window. */
  ghost predicate PickedInFlight(cfg: Config, w: World, id: nat, sid: string)
    requires cfg.spec.Loaded()
  {
    && Shaped(w) && sid in w.logs && id in w.tasks && w.tasks[id].Calling?
    && w.logs[sid] == w.tasks[id].base + [w.tasks[id].claim]
    && forall staleAfter: nat :: Picks(cfg.store, w.logs, sid, cfg.maxAttempts, staleAfter, w.tasks[id].claim.occurredAt)
  }

  /** With three attempts or more, some run of any accepted request has two runners at work on it inside the window. */
  lemma AnyRetryCanBePicked(
      cfg: Config, p: Principal, raws: Raws, uploads: seq<Upload>, reviewer: Principal, sid: string)
    requires ConfigOk(cfg) && PlainAccounts(p) && Admission(cfg, p, raws, uploads).Some? && reviewer.IsInternal()
    requires cfg.maxAttempts >= 3
    ensures exists worlds: seq<World>, steps :: IsRun(cfg, worlds, steps) && PickedInFlight(cfg, worlds[|steps|], 0, sid)
  {
    hide StateOf, Inv, Leads, Admission, StartsReleasable, PlainAccounts, Shaped, PickedInFlight;
    var submitted := SubmitLeads(cfg, p, raws, uploads, sid);
    var released := ReleaseLeads(cfg, submitted, reviewer, sid);
    var claimed := RetryLeads(cfg, released, sid);
    LeadsFurther(cfg, submitted, released, claimed);
    LeadsFurther(cfg, START, submitted, claimed);
    LedByRun(cfg, claimed);
  }

  /** One transient error, and the claim of the retry. */
  lemma RetryLeads(cfg: Config, w: World, sid: string) returns (w': World)
    requires ConfigOk(cfg) && Inv(cfg, w) && Shaped(w) && Alone(w, sid) && WellFormed(w.logs[sid])
    requires StateOf(w.logs[sid]).status.VALIDATED? && cfg.maxAttempts >= 3
    ensures Leads(cfg, w, w') && PickedInFlight(cfg, w', 0, sid)
  {
    hide StateOf, Inv, InSight, Dispatched, KeyText, IdempotencyKey, BuildPayload, Leads, Shaped, LegalNext, PickedInFlight;
    var log := w.logs[sid];
    InvHolds(cfg, w);
    AloneIsInSight(cfg.store, w.logs, sid);
    ValidatedEnd(cfg, w, sid);
    StatusFactsHold(cfg, log);
    var claim := DispatchLeads(cfg, w, 0, sid, Transient(""));
    var after := Dispatched(log, Transient(""), cfg.maxAttempts, claim.occurredAt, 0);
    TransientState(cfg, log, claim.occurredAt);
    var failed := World(w.logs[sid := after], map[], w.calls + [CallFor(log, claim)]);
    w' := SecondClaim(cfg, failed, sid);
    LeadsFurther(cfg, w, failed, w');
  }

  lemma SecondClaim(cfg: Config, w: World, sid: string) returns (w': World)
    requires ConfigOk(cfg) && Inv(cfg, w) && Shaped(w) && Alone(w, sid) && WellFormed(w.logs[sid])
    requires StateOf(w.logs[sid]).status.CPI_PENDING? && StateOf(w.logs[sid]).cpiAttempts == 1 && cfg.maxAttempts >= 3
    requires w.logs[sid][|w.logs[sid]| - 1].payload.CpiFailed?
    ensures Leads(cfg, w, w') && PickedInFlight(cfg, w', 0, sid)
  {
    hide StateOf, Inv, InSight, IdempotencyKey, Leads, LegalNext, AfterAppend, AppendAnswer;
    var log := w.logs[sid];
    InvHolds(cfg, w);
    StatusFactsHold(cfg, log);
    AloneIsInSight(cfg.store, w.logs, sid);
    var claim := ClaimLeads(cfg, w, 0, sid);
    ClaimCounts(cfg, log, claim);
    w' := World(w.logs[sid := log + [claim]], w.tasks[0 := Calling(log, claim)], w.calls);
    AloneIsInSight(cfg.store, w'.logs, sid);
  }

  // --------------------------------------------------------- they are not vacuous

  /** A customer of the two-field system with day-number dates: both happen there. */
  lemma BothHappen()
    ensures exists worlds: seq<World>, steps ::
              IsRun(Unplain(DAY_NUMBERS, "A"), worlds, steps) && StuckForGood(Unplain(DAY_NUMBERS, "A"), worlds[|steps|], "s")
    ensures var cfg := Unplain(DAY_NUMBERS, "A").(maxAttempts := 3);
            exists worlds: seq<World>, steps :: IsRun(cfg, worlds, steps) && PickedInFlight(cfg, worlds[|steps|], 0, "s")
  {
    hide Admission, Next, StuckForGood, PickedInFlight, Strip;
    var p := Principal("", {"A"}, Customer);
    var few := Unplain(DAY_NUMBERS, "A");
    DayNumbersAreOk();
    assert Strip("A") == "A" by { LetterIsPlain(); }
    PlainRequestAccepted(p, DAY_NUMBERS, "A");
    AnyRequestCanGetStuck(few, p, Typed("A"), [], Principal("", {}, Internal), "s");
    AttemptsDoNotMatter(few, 3, p, Typed("A"), []);
    AnyRetryCanBePicked(few.(maxAttempts := 3), p, Typed("A"), [], Principal("", {}, Internal), "s");
  }

  lemma AttemptsDoNotMatter(cfg: Config, maxAttempts: int, p: Principal, raws: Raws, uploads: seq<Upload>)
    requires cfg.spec.Loaded()
    ensures Admission(cfg.(maxAttempts := maxAttempts), p, raws, uploads) == Admission(cfg, p, raws, uploads)
  {
    hide CheckForm, Acceptable, OwnedAccount;
  }
}
