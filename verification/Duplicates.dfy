/** A request that is released again after a dead letter is sent to CPI under a second key. */
module Duplicates {
  import opened Prelude
  import opened Numerals
  import opened Events
  import opened Folding
  import opened Repository
  import opened Listing
  import opened Validator
  import opened Attachments
  import opened Services
  import opened Review
  import opened Intake
  import opened Dispatch
  import opened Protocol
  import opened LogLaws
  import opened Runs
  import opened RunLaws
  import opened Liveness

  /** The store holds this submission only, and nothing is under way. */
  predicate Alone(w: World, sid: string) {
    w.logs.Keys == {sid} && w.tasks == map[]
  }

  lemma AloneIsInSight(b: Backend, logs: Logs, sid: string)
    requires StoreOk(logs) && logs.Keys == {sid}
    ensures InSight(b, logs, sid, WORK_LIMIT)
  {
    hide StateOf;
    NewerIrreflexive(KeyOf(logs, sid));
    assert NewerIds(logs, sid) == {};
    assert RivalIds(logs, sid) == {};
  }

  /** A customer's request is accepted. */
  lemma SubmitLeads(cfg: Config, p: Principal, raws: Raws, uploads: seq<Upload>, sid: string) returns (w: World)
    requires ConfigOk(cfg) && PlainAccounts(p) && Admission(cfg, p, raws, uploads).Some?
    ensures Leads(cfg, START, w) && Inv(cfg, w) && Shaped(w) && Alone(w, sid) && w.calls == [] && WellFormed(w.logs[sid])
    ensures StartsReleasable(cfg, w.logs[sid][0]) && StateOf(w.logs[sid]).status.SUBMITTED?
  {
    hide Admission, StartsReleasable, Inv, PlainAccounts;
    var (account, values) := Admission(cfg, p, raws, uploads).value;
    AdmissionOwned(cfg, p, raws, uploads);
    var e := SubmittedEvent(sid, account, p, values, [], 0);
    AdmittedStarts(cfg, p, raws, uploads, account, values, e);
    WellFormedSingle(e);
    StartIsOk(cfg);
    StaysPut(cfg, START);
    var asked := START.(tasks := map[0 := Writing(p, [], e)]);
    assert Next(cfg, START, Submit(0, p, raws, uploads, sid, [], 0), asked);
    LeadsOn(cfg, START, START, Submit(0, p, raws, uploads, sid, [], 0), asked);
    w := World(map[sid := [e]], map[], []);
    assert [] + [e] == [e];
    assert asked.tasks - {0} == map[];
    assert AfterAppend(asked.logs, p, sid, 0, e) == w.logs;
    assert Next(cfg, asked, Append(0, 0), w);
    LeadsOn(cfg, START, asked, Append(0, 0), w);
  }

  /** The internal team releases a releasable request. */
  lemma ReleaseLeads(cfg: Config, w: World, p: Principal, sid: string) returns (w': World)
    requires ConfigOk(cfg) && Inv(cfg, w) && Shaped(w) && Alone(w, sid) && p.IsInternal() && Reviewable(StateOf(w.logs[sid]).status)
    requires StartsReleasable(cfg, w.logs[sid][0])
    ensures Leads(cfg, w, w') && Inv(cfg, w') && Shaped(w') && Alone(w', sid) && w'.calls == w.calls
    ensures |w'.logs[sid]| == |w.logs[sid]| + 1 && WellFormed(w'.logs[sid]) && w'.logs[sid][0] == w.logs[sid][0]
    ensures StateOf(w'.logs[sid]).status.VALIDATED? && StateOf(w'.logs[sid]).validatedSeq == Some(|w'.logs[sid]|)
  {
    hide StateOf, Releasable, Inv, Decide;
    var log := w.logs[sid];
    InvHolds(cfg, w);
    StaysReleasable(cfg, log);
    ReleaseSucceeds(cfg, p, log, 0);
    var e := Decide(cfg, p, log, |log|, Release, 0).value;
    ReleaseIs(cfg, p, log);
    StaysPut(cfg, w);
    var asked := w.(tasks := map[0 := Writing(p, log, e)]);
    assert Next(cfg, w, Command(0, p, sid, |log|, Release, 0), asked);
    LeadsOn(cfg, w, w, Command(0, p, sid, |log|, Release, 0), asked);
    AppendLeads(cfg, w, asked, 0, p, log, e);
    w' := World(w.logs[sid := log + [e]], map[], w.calls);
    assert asked.tasks - {0} == map[];
    WellFormedExtend(log, e);
  }

  lemma ReleaseIs(cfg: Config, p: Principal, log: seq<Event>)
    requires cfg.spec.Loaded() && WellFormed(log) && Decide(cfg, p, log, |log|, Release, 0).Ok?
    ensures var e := Decide(cfg, p, log, |log|, Release, 0).value; e.payload.Validated? && Continues(log, e)
  {
    hide StateOf, CheckForm;
  }

  lemma TransientState(cfg: Config, log: seq<Event>, claimAt: Time)
    requires ConfigOk(cfg) && WellFormed(log) && IdempotencyKey(StateOf(log)).Some?
    ensures var before, after := StateOf(log), Dispatched(log, Transient(""), cfg.maxAttempts, claimAt, 0);
            && WellFormed(after) && after[0] == log[0] && |after| == |log| + 2 && after[|after| - 1].payload.CpiFailed?
            && StateOf(after).cpiAttempts == before.cpiAttempts + 1 && StateOf(after).validatedSeq == before.validatedSeq
            && StateOf(after).status == if before.cpiAttempts + 1 >= cfg.maxAttempts then CPI_FAILED else CPI_PENDING
  {
    hide KeyText;
    DispatchedWellFormed(log, Transient(""), cfg.maxAttempts, claimAt, 0);
    FoldedPosition(log);
    DispatchedIs(log, Transient(""), cfg.maxAttempts, claimAt, 0);
    hide StateOf;
    var sub := StateOf(log);
    FoldedProvenance(log);
    var claim := Claim(sub, IdempotencyKey(sub).value, claimAt);
    WellFormedExtend(log, claim);
    WellFormedExtend(log + [claim], Report(sub, Transient(""), cfg.maxAttempts, 0).value);
  }

  /** All calls from number `n` on are for this submission, under this key. */
  predicate CallsFrom(calls: seq<Call>, n: nat, sid: string, key: string) {
    n < |calls| && forall i :: n <= i < |calls| ==> calls[i].sid == sid && calls[i].key == key
  }

  /** The request has become a dead letter, and all calls meanwhile were for its validation at `v`. */
  predicate DeadLettered(w: World, w': World, sid: string, v: nat)
    requires Alone(w, sid)
  {
    && Alone(w', sid) && WellFormed(w'.logs[sid]) && StateOf(w'.logs[sid]).status.CPI_FAILED?
    && 0 < |w.logs[sid]| < |w'.logs[sid]| && w'.logs[sid][0] == w.logs[sid][0]
    && |w'.calls| > |w.calls| && w'.calls[..|w.calls|] == w.calls && CallsFrom(w'.calls, |w.calls|, sid, KeyText(sid, v))
  }

  /** Transient errors up to the limit make a dead letter of a released request, all under the key of its validation. */
  lemma {:induction false} DeadLetterLeads(cfg: Config, w: World, sid: string, v: nat) returns (w': World)
    requires ConfigOk(cfg) && Inv(cfg, w) && Shaped(w) && Alone(w, sid) && Released(w.logs[sid])
    requires !w.logs[sid][|w.logs[sid]| - 1].payload.CpiDispatched? && StateOf(w.logs[sid]).validatedSeq == Some(v)
    ensures Leads(cfg, w, w') && Inv(cfg, w') && Shaped(w') && DeadLettered(w, w', sid, v)
    decreases cfg.maxAttempts - StateOf(w.logs[sid]).cpiAttempts
  {
    hide StateOf, Inv, InSight, Dispatched, KeyText, IdempotencyKey, BuildPayload, Leads, Shaped;
    var log := w.logs[sid];
    InvHolds(cfg, w);
    AloneIsInSight(cfg.store, w.logs, sid);
    KeyOfLog(log);
    LeftToSpend(cfg, log);
    var claim := DispatchLeads(cfg, w, 0, sid, Transient(""));
    var after := Dispatched(log, Transient(""), cfg.maxAttempts, claim.occurredAt, 0);
    TransientState(cfg, log, claim.occurredAt);
    var next := World(w.logs[sid := after], map[], w.calls + [CallFor(log, claim)]);
    if StateOf(after).status.CPI_FAILED? {
      w' := next;
    } else {
      w' := DeadLetterLeads(cfg, next, sid, v);
      LeadsFurther(cfg, w, next, w');
      LongerSeries(w.calls, next.calls, w'.calls, sid, KeyText(sid, v));
    }
  }

  lemma LongerSeries(a: seq<Call>, b: seq<Call>, c: seq<Call>, sid: string, key: string)
    requires |b| == |a| + 1 && b[..|a|] == a && b[|a|].sid == sid && b[|a|].key == key
    requires |c| > |b| && c[..|b|] == b && CallsFrom(c, |b|, sid, key)
    ensures c[..|a|] == a && CallsFrom(c, |a|, sid, key)
  {
    assert c[|a|] == c[..|b|][|a|];
    assert c[..|a|] == c[..|b|][..|a|];
  }

  lemma LeftToSpend(cfg: Config, log: seq<Event>)
    requires ConfigOk(cfg) && GoodLog(cfg, log) && Released(log) && !log[|log| - 1].payload.CpiDispatched?
    ensures StateOf(log).cpiAttempts < cfg.maxAttempts
  {
    hide StateOf, LegalNext;
    StatusFactsHold(cfg, log);
  }

  /**
   Whatever request a customer can get accepted, some run sends it to CPI under two keys: it is released, runs into
   transient errors until it is a dead letter, is released again as it stands, and is dispatched again.
   */
  lemma TwoKeys(
      cfg: Config, p: Principal, raws: Raws, uploads: seq<Upload>, reviewer: Principal, sid: string)
    requires ConfigOk(cfg) && PlainAccounts(p) && Admission(cfg, p, raws, uploads).Some? && reviewer.IsInternal()
    ensures exists worlds: seq<World>, steps :: IsRun(cfg, worlds, steps) && |KeysOf(worlds[|steps|].calls, sid)| == 2
  {
    hide StateOf, Inv, Leads, Admission, KeyText, StartsReleasable, KeysOf, PlainAccounts;
    StartIsOk(cfg);
    var submitted := SubmitLeads(cfg, p, raws, uploads, sid);
    var first, second, done := ReleasedTwice(cfg, submitted, reviewer, sid);
    LeadsFurther(cfg, START, submitted, done);
    TwoKeysSeen(done.calls, sid, first, second);
    LedByRun(cfg, done);
  }

  lemma LedByRun(cfg: Config, w: World)
    requires cfg.spec.Loaded() && Leads(cfg, START, w)
    ensures exists worlds, steps :: IsRun(cfg, worlds, steps) && worlds[|steps|] == w
  {
    hide Next, Shaped;
    var worlds, steps :| PathBetween(cfg, worlds, steps, START, w);
  }

  /** The calls are for this submission, under two keys. */
  predicate TwoSeries(calls: seq<Call>, sid: string, first: nat, second: nat) {
    && first != second
    && (exists i :: 0 <= i < |calls| && calls[i].sid == sid && calls[i].key == KeyText(sid, first))
    && (exists i :: 0 <= i < |calls| && calls[i].sid == sid && calls[i].key == KeyText(sid, second))
    && forall i :: 0 <= i < |calls| ==> calls[i].sid == sid && calls[i].key in {KeyText(sid, first), KeyText(sid, second)}
  }

  lemma TwoKeysSeen(calls: seq<Call>, sid: string, first: nat, second: nat)
    requires TwoSeries(calls, sid, first, second)
    ensures |KeysOf(calls, sid)| == 2
  {
    hide KeyText;
    if KeyText(sid, first) == KeyText(sid, second) {
      KeysDistinct(sid, first, sid, second);
    }
    assert KeysOf(calls, sid) == {KeyText(sid, first), KeyText(sid, second)};
  }

  lemma ReleasedTwice(cfg: Config, w: World, reviewer: Principal, sid: string)
    returns (first: nat, second: nat, done: World)
    requires ConfigOk(cfg) && Inv(cfg, w) && Shaped(w) && Alone(w, sid) && w.calls == [] && reviewer.IsInternal()
    requires WellFormed(w.logs[sid]) && StateOf(w.logs[sid]).status.SUBMITTED? && StartsReleasable(cfg, w.logs[sid][0])
    ensures Leads(cfg, w, done) && TwoSeries(done.calls, sid, first, second)
  {
    hide StateOf, Inv, Leads, KeyText, StartsReleasable, Shaped;
    var released := ReleaseLeads(cfg, w, reviewer, sid);
    first := |released.logs[sid]|;
    ValidatedEnd(cfg, released, sid);
    var dead := DeadLetterLeads(cfg, released, sid, first);
    var again := ReleaseLeads(cfg, dead, reviewer, sid);
    second := |again.logs[sid]|;
    ValidatedEnd(cfg, again, sid);
    done := DeadLetterLeads(cfg, again, sid, second);
    LeadsFurther(cfg, w, released, dead);
    LeadsFurther(cfg, w, dead, again);
    LeadsFurther(cfg, w, again, done);
    SeriesJoin(dead.calls, done.calls, sid, first, second);
  }

  lemma SeriesJoin(a: seq<Call>, b: seq<Call>, sid: string, first: nat, second: nat)
    requires first != second && |b| > |a| && b[..|a|] == a
    requires CallsFrom(a, 0, sid, KeyText(sid, first)) && CallsFrom(b, |a|, sid, KeyText(sid, second))
    ensures TwoSeries(b, sid, first, second)
  {
    hide KeyText;
    assert forall i :: 0 <= i < |a| ==> b[i] == b[..|a|][i];
    assert b[0].sid == sid && b[0].key == KeyText(sid, first);
    assert b[|a|].sid == sid && b[|a|].key == KeyText(sid, second);
  }

  lemma ValidatedEnd(cfg: Config, w: World, sid: string)
    requires ConfigOk(cfg) && Inv(cfg, w) && sid in w.logs && WellFormed(w.logs[sid]) && StateOf(w.logs[sid]).status.VALIDATED?
    ensures Released(w.logs[sid]) && !w.logs[sid][|w.logs[sid]| - 1].payload.CpiDispatched?
  {
    hide StateOf, LegalNext;
    InvHolds(cfg, w);
    StatusFactsHold(cfg, w.logs[sid]);
  }

  /** So there are systems, customers and runs in which it happens. */
  lemma TwoKeysHappen(lib: Library)
    requires LibraryOk(lib)
    ensures exists worlds: seq<World>, steps :: IsRun(Unplain(lib, "A"), worlds, steps) && |KeysOf(worlds[|steps|].calls, "s")| == 2
  {
    hide Admission, KeysOf, Strip, Next;
    var p := Principal("", {"A"}, Customer);
    assert Strip("A") == "A" by { LetterIsPlain(); }
    PlainRequestAccepted(p, lib, "A");
    TwoKeys(Unplain(lib, "A"), p, Typed("A"), [], Principal("", {}, Internal), "s");
  }
}
