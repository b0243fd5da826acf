/** Which requests can still be moved by somebody, over either store, and which never will be. */
module Liveness {
  import opened Prelude
  import opened Events
  import opened Folding
  import opened Repository
  import opened Listing
  import opened Services
  import opened Review
  import opened Intake
  import opened Dispatch
  import opened Protocol
  import opened LogLaws
  import opened Runs

  // -------------------------------------------------------------- right now

  /** No writer that reads the store as it is would append to this log: no run picks it, and review refuses it. */
  ghost predicate NobodyMoves(cfg: Config, logs: Logs, sid: string)
    requires cfg.spec.Loaded() && StoreOk(logs) && sid in logs
  {
    && (forall staleAfter, now :: !Picks(cfg.store, logs, sid, cfg.maxAttempts, staleAfter, now))
    && (forall p, expected, cmd, at :: Decide(cfg, p, logs[sid], expected, cmd, at).Err?)
  }

  /** A released request is stuck, for now, exactly when its last claim is lost or no listing gets as far as it. */
  lemma StuckIff(cfg: Config, logs: Logs, sid: string)
    requires ConfigOk(cfg) && GoodStore(cfg, logs) && StoreOk(logs) && sid in logs && Released(logs[sid])
    ensures NobodyMoves(cfg, logs, sid) <==> LostLastClaim(cfg, logs[sid]) || !InSight(cfg.store, logs, sid, WORK_LIMIT)
  {
    hide StateOf, IsWork, InSight, Decide, GoodLog, LostLastClaim, Released;
    var log := logs[sid];
    NeverWorkIff(cfg, log, 0);
    forall p, expected, cmd, at
      ensures Decide(cfg, p, log, expected, cmd, at).Err?
    {
      ReviewRefusesReleased(cfg, p, log, expected, cmd, at);
    }
    if !LostLastClaim(cfg, log) && InSight(cfg.store, logs, sid, WORK_LIMIT) {
      CanBePicked(cfg, logs, sid, 0);
    }
  }

  /** Once its last event is stale, a submission in sight whose last claim is not lost is picked. */
  lemma CanBePicked(cfg: Config, logs: Logs, sid: string, staleAfter: int)
    requires ConfigOk(cfg) && GoodStore(cfg, logs) && StoreOk(logs) && sid in logs && Released(logs[sid])
    requires !LostLastClaim(cfg, logs[sid]) && InSight(cfg.store, logs, sid, WORK_LIMIT)
    ensures Picks(cfg.store, logs, sid, cfg.maxAttempts, staleAfter, StateOf(logs[sid]).lastEventAt + staleAfter + 1)
  {
    hide StateOf, InSight, LostLastClaim, Released, GoodLog;
    NeverWorkIff(cfg, logs[sid], staleAfter);
  }

  // ------------------------------------------------------------- nobody moves

  /** What it is about to do is to append to this log. */
  predicate TaskOn(t: Task, log: seq<Event>) {
    match t
    case Writing(_, base, _) => base == log
    case Claiming(base) => base == log
    case Calling(base, claim) => base + [claim] == log
    case Awaiting(base, claim) => base + [claim] == log
  }

  /** Some process is about to append to the log as it is now. */
  predicate Live(w: World, log: seq<Event>) {
    exists id <- w.tasks :: TaskOn(w.tasks[id], log)
  }

  /** An append, and a claim in particular, only extends a log it was about to extend. */
  lemma OnlyLiveExtends(cfg: Config, w: World, id: nat, at: Time, w': World, sid: string)
    requires ConfigOk(cfg) && Inv(cfg, w) && Shaped(w) && id in w.tasks && Appends(w, id, at, w')
    requires sid in w.logs && !Live(w, w.logs[sid])
    ensures sid in w'.logs && w'.logs[sid] == w.logs[sid]
    ensures id in w'.tasks ==> w'.tasks[id].Calling? && w'.tasks[id].base + [w'.tasks[id].claim] != w.logs[sid]
  {
    hide GoodStore, AfterAppend, AppendAnswer, LegalNext, IdempotencyKey, StateOf, WellFormed, OneCallPerClaim, CallOk;
    assert TaskOk(cfg, w.logs, w.tasks[id]);
    match w.tasks[id] {
      case Writing(p, base, e) =>
        AppendKeepsGood(cfg, w.logs, p, base, e);
        RefusedLeaves(w.logs, p, e);
      case Claiming(base) =>
        ClaimAppend(cfg, w.logs, base, at);
        var claim := Claim(StateOf(base), IdempotencyKey(StateOf(base)).value, at);
        RefusedLeaves(w.logs, SYSTEM, claim);
        BaseIsGood(cfg, w.logs, base);
        ClaimIsLegal(cfg, base, at);
        AppendKeepsGood(cfg, w.logs, SYSTEM, base, claim);
    }
  }

  lemma OtherTasksStay(w: World, id: nat, at: Time, w': World)
    requires Shaped(w) && id in w.tasks && Appends(w, id, at, w')
    ensures w'.tasks.Keys <= w.tasks.Keys && forall other <- w'.tasks :: other != id ==> w'.tasks[other] == w.tasks[other]
  {
    hide AfterAppend, AppendAnswer, StateOf, IdempotencyKey;
  }

  lemma StartingLeaves(cfg: Config, w: World, s: Step, w': World, sid: string)
    requires ConfigOk(cfg) && Inv(cfg, w) && Shaped(w) && Next(cfg, w, s, w') && (s.Submit? || s.Command? || s.Pick? || s.Hear?)
    requires sid in w.logs && WellFormed(w.logs[sid]) && Released(w.logs[sid]) && !Live(w, w.logs[sid])
    requires !(s.Pick? && s.sid == sid)
    ensures w'.logs == w.logs && !Live(w', w.logs[sid])
  {
    hide Decide, Admission, IsWork, InSight, TaskOk, CallOk, OneCallPerClaim, IdempotencyKey, StateOf, LegalNext, Report, Released;
    match s {
      case Submit(id, p, raws, uploads, other, metas, at) =>
      case Command(id, p, other, expected, cmd, at) =>
        if other == sid {
          ReviewRefusesReleased(cfg, p, w.logs[sid], expected, cmd, at);
        }
      case Pick(id, other, staleAfter, now) =>
      case Hear(id, answer, at) =>
    }
  }

  /** A released request that nobody picks, and for which no append is under way, stays as it is. */
  lemma UnpickedStays(cfg: Config, w: World, s: Step, w': World, sid: string)
    requires ConfigOk(cfg) && Inv(cfg, w) && Shaped(w) && Next(cfg, w, s, w') && !(s.Pick? && s.sid == sid)
    requires sid in w.logs && WellFormed(w.logs[sid]) && Released(w.logs[sid]) && !Live(w, w.logs[sid])
    ensures sid in w'.logs && w'.logs[sid] == w.logs[sid] && !Live(w', w.logs[sid])
  {
    hide Decide, Admission, IsWork, InSight, GoodStore, TaskOk, CallOk, OneCallPerClaim, IdempotencyKey, StateOf, Report;
    hide Appends, Inv, CallFor, Shaped, Released;
    match s {
      case Append(id, at) => OnlyLiveExtends(cfg, w, id, at, w', sid); OtherTasksStay(w, id, at, w');
      case CallCpi(id) =>
      case Crash(id) =>
      case _ => StartingLeaves(cfg, w, s, w', sid);
    }
  }

  // -------------------------------------------------------------- and for ever

  /** The newer requests whose last claim is lost; they stay pending for ever. */
  function LostAhead(cfg: Config, logs: Logs, sid: string): set<string>
    requires StoreOk(logs) && sid in logs
  {
    set s | s in NewerIds(logs, sid) && LostLastClaim(cfg, logs[s])
  }

  /** The SQL repository's status listings no longer reach this submission. */
  predicate PastCandidates(cfg: Config, logs: Logs, sid: string)
    requires StoreOk(logs) && sid in logs
  {
    cfg.store.Sql? && |NewerIds(logs, sid)| >= MAX_CANDIDATES
  }

  /** Its last claim is lost, the candidates end before it, or lost claims alone fill the listing of its status. */
  predicate Blocked(cfg: Config, logs: Logs, sid: string)
    requires StoreOk(logs) && sid in logs
  {
    || LostLastClaim(cfg, logs[sid]) || PastCandidates(cfg, logs, sid)
    || (StateOf(logs[sid]).status.CPI_PENDING? && |LostAhead(cfg, logs, sid)| >= WORK_LIMIT)
  }

  /** No append to a released request is under way. */
  predicate Quiet(w: World)
    requires Shaped(w)
  {
    forall sid <- w.logs :: Released(w.logs[sid]) ==> !Live(w, w.logs[sid])
  }

  /** A blocked request, with the lost claims in `lost` as the reason, and no append to any of them under way. */
  predicate Shut(cfg: Config, w: World, sid: string, lost: set<string>)
    requires Shaped(w)
  {
    && sid in w.logs && Released(w.logs[sid]) && !Live(w, w.logs[sid])
    && (forall s <- lost :: s in w.logs && LostLastClaim(cfg, w.logs[s]) && !Live(w, w.logs[s]))
    && (|| sid in lost || PastCandidates(cfg, w.logs, sid)
        || (StateOf(w.logs[sid]).status.CPI_PENDING? && lost <= NewerIds(w.logs, sid) && |lost| >= WORK_LIMIT))
  }

  lemma ShutIsNotPicked(cfg: Config, w: World, sid: string, lost: set<string>, staleAfter: int, now: Time)
    requires ConfigOk(cfg) && Shaped(w) && GoodStore(cfg, w.logs) && Shut(cfg, w, sid, lost)
    ensures !Picks(cfg.store, w.logs, sid, cfg.maxAttempts, staleAfter, now)
  {
    hide StateOf, LostLastClaim, Released, GoodLog, NewerIds;
    if sid in lost {
      LostIsPending(cfg, w.logs[sid]);
    } else if !PastCandidates(cfg, w.logs, sid) {
      forall s <- lost
        ensures s in RivalIds(w.logs, sid)
      {
        LostIsPending(cfg, w.logs[s]);
      }
      SubsetSize(lost, RivalIds(w.logs, sid));
    }
  }

  lemma ShutStep(cfg: Config, w: World, s: Step, w': World, sid: string, lost: set<string>)
    requires ConfigOk(cfg) && Inv(cfg, w) && Shaped(w) && Next(cfg, w, s, w') && Inv(cfg, w') && Shaped(w') && Shut(cfg, w, sid, lost)
    ensures Shut(cfg, w', sid, lost) && w'.logs[sid] == w.logs[sid]
  {
    hide StateOf, Released, NewerIds, LostLastClaim, Live, Inv, Decide, Admission, IsWork, InSight, Report, Appends;
    InvHolds(cfg, w);
    NotPicked(cfg, w, s, w', sid, lost);
    UnpickedStays(cfg, w, s, w', sid);
    forall o <- lost
      ensures o in w'.logs && w'.logs[o] == w.logs[o] && !Live(w', w.logs[o])
    {
      LostStays(cfg, w, s, w', o);
    }
    NextKeepsInv(cfg, w, s, w');
    NewerIdsGrow(w.logs, w'.logs, sid);
  }

  lemma NotPicked(cfg: Config, w: World, s: Step, w': World, sid: string, lost: set<string>)
    requires ConfigOk(cfg) && GoodStore(cfg, w.logs) && Shaped(w) && Next(cfg, w, s, w') && Shut(cfg, w, sid, lost)
    ensures !(s.Pick? && s.sid == sid)
  {
    hide StateOf, Released, NewerIds, LostLastClaim, Live, Picks, GoodLog;
    if s.Pick? && s.sid == sid {
      ShutIsNotPicked(cfg, w, sid, lost, s.staleAfter, s.now);
    }
  }

  lemma LostStays(cfg: Config, w: World, s: Step, w': World, sid: string)
    requires ConfigOk(cfg) && Inv(cfg, w) && Shaped(w) && Next(cfg, w, s, w')
    requires sid in w.logs && LostLastClaim(cfg, w.logs[sid]) && !Live(w, w.logs[sid])
    ensures sid in w'.logs && w'.logs[sid] == w.logs[sid] && !Live(w', w.logs[sid])
  {
    hide StateOf, NewerIds, LostLastClaim, Live, Inv, Next;
    InvHolds(cfg, w);
    LostIsPending(cfg, w.logs[sid]);
    NotPicked(cfg, w, s, w', sid, {sid});
    UnpickedStays(cfg, w, s, w', sid);
  }

  lemma {:induction false} ShutForever(cfg: Config, worlds: seq<World>, steps: seq<Step>, n: nat, sid: string, lost: set<string>)
    requires ConfigOk(cfg) && IsPath(cfg, worlds, steps) && n <= |steps| && Inv(cfg, worlds[0]) && Shaped(worlds[0])
    requires Shut(cfg, worlds[0], sid, lost)
    ensures Shaped(worlds[n]) && Shut(cfg, worlds[n], sid, lost) && worlds[n].logs[sid] == worlds[0].logs[sid]
  {
    hide Next, Inv, Shaped, Shut;
    if n > 0 {
      ShutForever(cfg, worlds, steps, n - 1, sid, lost);
      PathsKeepInv(cfg, worlds, steps, n - 1);
      PathsKeepInv(cfg, worlds, steps, n);
      InvIsShaped(cfg, worlds[n]);
      assert Next(cfg, worlds[n - 1], steps[n - 1], worlds[n - 1 + 1]);
      ShutStep(cfg, worlds[n - 1], steps[n - 1], worlds[n], sid, lost);
      ShutHas(cfg, worlds[n - 1], sid, lost);
      ShutHas(cfg, worlds[0], sid, lost);
    }
  }

  lemma ShutHas(cfg: Config, w: World, sid: string, lost: set<string>)
    requires Shaped(w) && Shut(cfg, w, sid, lost)
    ensures sid in w.logs
  {
  }

  /** With nothing under way, a blocked request is never moved again, by anybody, whatever else happens. */
  lemma BlockedForever(cfg: Config, worlds: seq<World>, steps: seq<Step>, n: nat, sid: string)
    requires ConfigOk(cfg) && IsPath(cfg, worlds, steps) && n <= |steps| && Inv(cfg, worlds[0]) && Shaped(worlds[0])
    requires Quiet(worlds[0]) && sid in worlds[0].logs && Released(worlds[0].logs[sid]) && Blocked(cfg, worlds[0].logs, sid)
    ensures sid in worlds[n].logs && worlds[n].logs[sid] == worlds[0].logs[sid]
  {
    hide Next, Inv, StateOf, NewerIds, Live;
    var w := worlds[0];
    var lost := if LostLastClaim(cfg, w.logs[sid]) then {sid} else LostAhead(cfg, w.logs, sid);
    assert forall s <- NewerIds(w.logs, sid) :: s in w.logs by { NewerAreThere(w.logs, sid); }
    forall s <- lost
      ensures s in w.logs && LostLastClaim(cfg, w.logs[s]) && !Live(w, w.logs[s])
    {
      LostIsPending(cfg, w.logs[s]);
    }
    ShutForever(cfg, worlds, steps, n, sid, lost);
  }

  lemma NewerAreThere(logs: Logs, sid: string)
    requires StoreOk(logs) && sid in logs
    ensures forall s <- NewerIds(logs, sid) :: s in logs
  {
  }

  // ------------------------------------------------------------ ways onwards

  /** Some path of steps leads from one world to the other. */
  ghost predicate Leads(cfg: Config, w: World, w': World)
    requires cfg.spec.Loaded()
  {
    exists worlds, steps :: PathBetween(cfg, worlds, steps, w, w')
  }

  ghost predicate PathBetween(cfg: Config, worlds: seq<World>, steps: seq<Step>, w: World, w': World)
    requires cfg.spec.Loaded()
  {
    IsPath(cfg, worlds, steps) && worlds[0] == w && worlds[|steps|] == w'
  }

  lemma StaysPut(cfg: Config, w: World)
    requires cfg.spec.Loaded()
    ensures Leads(cfg, w, w)
  {
    assert PathBetween(cfg, [w], [], w, w);
  }

  /** One more step at the end of a path. */
  lemma LeadsOn(cfg: Config, w: World, w': World, s: Step, w'': World)
    requires ConfigOk(cfg) && Leads(cfg, w, w') && Inv(cfg, w) && Shaped(w') && Next(cfg, w', s, w'')
    ensures Leads(cfg, w, w'') && Inv(cfg, w') && Inv(cfg, w'') && Shaped(w'')
  {
    hide Next, Shaped, Inv;
    var worlds, steps :| PathBetween(cfg, worlds, steps, w, w');
    PathsKeepInv(cfg, worlds, steps, |steps|);
    NextKeepsInv(cfg, w', s, w'');
    InvIsShaped(cfg, w'');
    var worlds', steps' := worlds + [w''], steps + [s];
    forall i | 0 <= i < |steps'|
      ensures Shaped(worlds'[i]) && Next(cfg, worlds'[i], steps'[i], worlds'[i + 1])
    {
      if i < |steps| {
        assert Next(cfg, worlds[i], steps[i], worlds[i + 1]);
        assert worlds'[i] == worlds[i] && worlds'[i + 1] == worlds[i + 1] && steps'[i] == steps[i];
      }
    }
    assert PathBetween(cfg, worlds', steps', w, w'');
  }

  lemma LeadsFurther(cfg: Config, w: World, w': World, w'': World)
    requires cfg.spec.Loaded() && Leads(cfg, w, w') && Leads(cfg, w', w'')
    ensures Leads(cfg, w, w'')
  {
    hide Next, Shaped;
    var a, s :| PathBetween(cfg, a, s, w, w');
    var b, t :| PathBetween(cfg, b, t, w', w'');
    var worlds, steps := a + b[1..], s + t;
    forall i | 0 <= i < |steps|
      ensures Shaped(worlds[i]) && Next(cfg, worlds[i], steps[i], worlds[i + 1])
    {
      if i < |s| {
        assert Next(cfg, a[i], s[i], a[i + 1]);
        assert worlds[i] == a[i] && worlds[i + 1] == a[i + 1] && steps[i] == s[i];
      } else {
        var j := i - |s|;
        assert Next(cfg, b[j], t[j], b[j + 1]);
        assert worlds[i] == b[j] && worlds[i + 1] == b[j + 1] && steps[i] == t[j];
      }
    }
    assert PathBetween(cfg, worlds, steps, w, w'');
  }

  /** An event that follows the log is appended. */
  lemma AppendLeads(cfg: Config, w: World, w': World, id: nat, p: Principal, log: seq<Event>, e: Event)
    requires ConfigOk(cfg) && Leads(cfg, w, w') && Inv(cfg, w) && Shaped(w') && WellFormed(log) && Continues(log, e)
    requires id in w'.tasks && w'.tasks[id] == Writing(p, log, e) && p.Sees(log[0].accountId)
    requires log[0].submissionId in w'.logs && w'.logs[log[0].submissionId] == log
    ensures var sid := log[0].submissionId;
            var w'' := World(w'.logs[sid := log + [e]], w'.tasks - {id}, w'.calls);
            Leads(cfg, w, w'') && Inv(cfg, w'') && Shaped(w'')
  {
    var sid := log[0].submissionId;
    hide WellFormed, StateOf, Inv, IdempotencyKey;
    var w'' := World(w'.logs[sid := log + [e]], w'.tasks - {id}, w'.calls);
    assert AfterAppend(w'.logs, p, sid, e.seqNo - 1, e) == w''.logs;
    assert Next(cfg, w', Append(id, 0), w'');
    hide Next, Appends, Shaped;
    LeadsOn(cfg, w, w', Append(id, 0), w'');
  }

  /** A new runner picks a request in sight and its claim is accepted. */
  lemma ClaimLeads(cfg: Config, w: World, id: nat, sid: string) returns (claim: Event)
    requires ConfigOk(cfg) && Inv(cfg, w) && Shaped(w) && id !in w.tasks && sid in w.logs && Released(w.logs[sid])
    requires !LostLastClaim(cfg, w.logs[sid]) && InSight(cfg.store, w.logs, sid, WORK_LIMIT)
    ensures var log := w.logs[sid];
            && IdempotencyKey(StateOf(log)).Some? && StateOf(log).seqNo == |log| && Continues(log, claim)
            && claim == Claim(StateOf(log), IdempotencyKey(StateOf(log)).value, claim.occurredAt)
            && var w' := World(w.logs[sid := log + [claim]], w.tasks[id := Calling(log, claim)], w.calls);
               Leads(cfg, w, w') && Inv(cfg, w') && Shaped(w')
  {
    hide StateOf, InSight, LostLastClaim, IdempotencyKey, AfterAppend, AppendAnswer, WellFormed;
    var log := w.logs[sid];
    InvHolds(cfg, w);
    CanBePicked(cfg, w.logs, sid, 0);
    var now := StateOf(log).lastEventAt + 1;
    ClaimIsLegal(cfg, log, now);
    claim := Claim(StateOf(log), IdempotencyKey(StateOf(log)).value, now);
    LegalContinues(cfg, log, claim);
    FoldedProvenance(log);
    NextAppends(w.logs, SYSTEM, sid, claim);
    var picked := w.(tasks := w.tasks[id := Claiming(log)]);
    var claimed := World(w.logs[sid := log + [claim]], w.tasks[id := Calling(log, claim)], w.calls);
    assert Next(cfg, w, Pick(id, sid, 0, now), picked);
    StaysPut(cfg, w);
    hide Inv;
    LeadsOn(cfg, w, w, Pick(id, sid, 0, now), picked);
    assert picked.tasks[id := Calling(log, claim)] == claimed.tasks;
    assert Appends(picked, id, now, claimed);
    assert Next(cfg, picked, Append(id, now), claimed);
    hide Next, Appends, Shaped;
    LeadsOn(cfg, w, picked, Append(id, now), claimed);
  }

  /** A new runner takes a request in sight through claim, call and report. */
  lemma DispatchLeads(cfg: Config, w: World, id: nat, sid: string, answer: Answer) returns (claim: Event)
    requires ConfigOk(cfg) && Inv(cfg, w) && Shaped(w) && id !in w.tasks && sid in w.logs && Released(w.logs[sid])
    requires !LostLastClaim(cfg, w.logs[sid]) && InSight(cfg.store, w.logs, sid, WORK_LIMIT) && !answer.Explodes?
    ensures var log := w.logs[sid];
            && IdempotencyKey(StateOf(log)).Some? && claim.payload.CpiDispatched? && claim.submissionId == sid
            && claim.payload.idempotencyKey == IdempotencyKey(StateOf(log)).value
            && var w' := World(
                           w.logs[sid := Dispatched(log, answer, cfg.maxAttempts, claim.occurredAt, 0)], w.tasks,
                           w.calls + [CallFor(log, claim)]);
               Leads(cfg, w, w') && Inv(cfg, w') && Shaped(w')
  {
    hide StateOf, InSight, LostLastClaim, IdempotencyKey, AfterAppend, AppendAnswer, BuildPayload, Appends, Inv, Report;
    claim := ClaimLeads(cfg, w, id, sid);
    var log := w.logs[sid];
    FoldedProvenance(log);
    var claimed := World(w.logs[sid := log + [claim]], w.tasks[id := Calling(log, claim)], w.calls);
    var called := World(claimed.logs, w.tasks[id := Awaiting(log, claim)], w.calls + [CallFor(log, claim)]);
    assert claimed.tasks[id := Awaiting(log, claim)] == called.tasks;
    assert Next(cfg, claimed, CallCpi(id), called);
    LeadsOn(cfg, w, claimed, CallCpi(id), called);
    ReportLeads(cfg, w, called, id, sid, log, claim, answer);
    var after := Dispatched(log, answer, cfg.maxAttempts, claim.occurredAt, 0);
    assert called.tasks - {id} == w.tasks;
    assert called.logs[sid := after] == w.logs[sid := after];
  }

  lemma {:induction false} ReportLeads(
      cfg: Config, w: World, called: World, id: nat, sid: string, log: seq<Event>, claim: Event, answer: Answer)
    requires ConfigOk(cfg) && Inv(cfg, w) && Shaped(called) && Leads(cfg, w, called) && !answer.Explodes?
    requires WellFormed(log) && IdempotencyKey(StateOf(log)).Some? && StateOf(log).seqNo == |log|
    requires claim == Claim(StateOf(log), IdempotencyKey(StateOf(log)).value, claim.occurredAt) && Continues(log, claim)
    requires sid == log[0].submissionId && sid in called.logs && called.logs[sid] == log + [claim]
    requires id in called.tasks && called.tasks[id] == Awaiting(log, claim)
    ensures var w' := World(
                        called.logs[sid := Dispatched(log, answer, cfg.maxAttempts, claim.occurredAt, 0)], called.tasks - {id},
                        called.calls);
            Leads(cfg, w, w') && Inv(cfg, w') && Shaped(w')
  {
    hide StateOf, IdempotencyKey, AfterAppend, AppendAnswer, Inv, LegalNext;
    var report := Report(StateOf(log), answer, cfg.maxAttempts, 0).value;
    ReportIsLegal(cfg, log, IdempotencyKey(StateOf(log)).value, answer, claim.occurredAt, 0);
    LegalContinues(cfg, log + [claim], report);
    assert (log + [claim])[0] == log[0];
    var heard := called.(tasks := called.tasks[id := Writing(SYSTEM, log + [claim], report)]);
    assert Next(cfg, called, Hear(id, answer, 0), heard);
    hide Next, Shaped;
    LeadsOn(cfg, w, called, Hear(id, answer, 0), heard);
    AppendLeads(cfg, w, heard, id, SYSTEM, log + [claim], report);
    DispatchedIs(log, answer, cfg.maxAttempts, claim.occurredAt, 0);
    assert heard.tasks - {id} == called.tasks - {id};
    assert heard.logs[sid := log + [claim] + [report]] ==
           called.logs[sid := Dispatched(log, answer, cfg.maxAttempts, claim.occurredAt, 0)];
  }

  // ------------------------------------------------- what can still be moved

  lemma {:induction false} NewestOf(logs: Logs, ids: set<string>) returns (r: string)
    requires StoreOk(logs) && ids != {} && ids <= logs.Keys
    ensures r in ids && forall s <- ids :: s == r || Newer(KeyOf(logs, r), KeyOf(logs, s))
  {
    var x :| x in ids;
    if ids == {x} {
      return x;
    }
    var y := NewestOf(logs, ids - {x});
    NewerTotal(KeyOf(logs, x), KeyOf(logs, y));
    r := if Newer(KeyOf(logs, x), KeyOf(logs, y)) then x else y;
    forall s <- ids | s != r
      ensures Newer(KeyOf(logs, r), KeyOf(logs, s))
    {
      if r == x && s != y {
        NewerTransitive(KeyOf(logs, x), KeyOf(logs, y), KeyOf(logs, s));
      }
    }
  }

  /** The newest rival that could still be moved is itself in sight. */
  lemma FirstMovableRival(cfg: Config, logs: Logs, sid: string) returns (r: string)
    requires ConfigOk(cfg) && StoreOk(logs) && GoodStore(cfg, logs) && sid in logs && Released(logs[sid])
    requires !Blocked(cfg, logs, sid) && !InSight(cfg.store, logs, sid, WORK_LIMIT)
    ensures r in RivalIds(logs, sid) && r in logs && Released(logs[r]) && !LostLastClaim(cfg, logs[r])
    ensures InSight(cfg.store, logs, r, WORK_LIMIT)
  {
    hide StateOf, LostLastClaim, GoodLog, WellFormed;
    var rivals := RivalIds(logs, sid);
    var lost := set s | s in rivals && LostLastClaim(cfg, logs[s]);
    forall s <- lost
      ensures StateOf(logs[s]).status.CPI_PENDING? && s in LostAhead(cfg, logs, sid)
    {
      LostIsPending(cfg, logs[s]);
    }
    SubsetSize(lost, LostAhead(cfg, logs, sid));
    assert StateOf(logs[sid]).status.VALIDATED? ==> lost == {};
    var movable := rivals - lost;
    if movable == {} {
      assert rivals <= lost by {
        assert forall s <- rivals :: s !in movable;
      }
      SubsetSize(rivals, lost);
    }
    r := NewestOf(logs, movable);
    RivalsOfNewest(logs, sid, rivals, lost, r);
    SubsetSize(RivalIds(logs, r), lost);
    SubsetSize(NewerIds(logs, r), NewerIds(logs, sid));
  }

  lemma RivalsOfNewest(logs: Logs, sid: string, rivals: set<string>, lost: set<string>, r: string)
    requires StoreOk(logs) && sid in logs && rivals == RivalIds(logs, sid) && lost <= rivals && r in rivals - lost
    requires forall s <- rivals - lost :: s in logs && (s == r || Newer(KeyOf(logs, r), KeyOf(logs, s)))
    ensures r in logs && NewerIds(logs, r) <= NewerIds(logs, sid) && RivalIds(logs, r) <= lost
  {
    hide StateOf, WellFormed;
    forall s <- NewerIds(logs, r)
      ensures s in NewerIds(logs, sid)
    {
      NewerTransitive(KeyOf(logs, s), KeyOf(logs, r), KeyOf(logs, sid));
    }
    forall s <- RivalIds(logs, r)
      ensures s in lost
    {
      if s !in lost {
        NewerIrreflexive(KeyOf(logs, r));
        if s != r {
          NewerTransitive(KeyOf(logs, r), KeyOf(logs, s), KeyOf(logs, r));
        }
      }
    }
  }

  /** A request that is done gets out of the way, and changes nothing else. */
  lemma OutOfTheWay(cfg: Config, logs: Logs, logs': Logs, sid: string, r: string)
    requires StoreOk(logs) && StoreOk(logs') && sid in logs && r in RivalIds(logs, sid) && Released(logs[sid])
    requires r in logs' && logs' == logs[r := logs'[r]] && logs'[r][0] == logs[r][0]
    requires StateOf(logs'[r]).status.CPI_DONE? && !LostLastClaim(cfg, logs[r]) && !LostLastClaim(cfg, logs'[r])
    ensures r != sid && logs'[sid] == logs[sid] && RivalIds(logs', sid) == RivalIds(logs, sid) - {r}
    ensures Blocked(cfg, logs', sid) == Blocked(cfg, logs, sid)
  {
    hide StateOf, LostLastClaim, WellFormed;
    NewerIrreflexive(KeyOf(logs, sid));
    forall s <- logs
      ensures KeyOf(logs', s) == KeyOf(logs, s)
    {
    }
    assert NewerIds(logs', sid) == NewerIds(logs, sid);
    assert RivalIds(logs', sid) == RivalIds(logs, sid) - {r};
    assert LostAhead(cfg, logs', sid) == LostAhead(cfg, logs, sid);
  }

  lemma {:induction false} FreshId(ids: set<nat>) returns (id: nat)
    ensures forall i <- ids :: i < id
  {
    if i :| i in ids {
      id := FreshId(ids - {i});
      assert ids == ids - {i} + {i};
      if id <= i {
        id := i + 1;
      }
    } else {
      id := 0;
    }
  }

  lemma OrderedIsDone(cfg: Config, log: seq<Event>, claimAt: Time)
    requires ConfigOk(cfg) && WellFormed(log) && IdempotencyKey(StateOf(log)).Some?
    ensures var after := Dispatched(log, Order(""), cfg.maxAttempts, claimAt, 0);
            && WellFormed(after) && after[0] == log[0] && |after| > |log|
            && StateOf(after).status.CPI_DONE? && !LostLastClaim(cfg, after)
  {
    hide KeyText;
    DispatchedWellFormed(log, Order(""), cfg.maxAttempts, claimAt, 0);
    FoldedPosition(log);
    DispatchedIs(log, Order(""), cfg.maxAttempts, claimAt, 0);
    hide StateOf;
    var sub := StateOf(log);
    FoldedProvenance(log);
    var claim := Claim(sub, IdempotencyKey(sub).value, claimAt);
    WellFormedExtend(log, claim);
    WellFormedExtend(log + [claim], Report(sub, Order(""), cfg.maxAttempts, 0).value);
  }

  /** A request that is not blocked can be moved, after the rivals before it if need be. */
  lemma {:induction false} CanBeMoved(cfg: Config, w: World, sid: string) returns (w': World)
    requires ConfigOk(cfg) && Inv(cfg, w) && Shaped(w) && sid in w.logs && Released(w.logs[sid]) && !Blocked(cfg, w.logs, sid)
    ensures Leads(cfg, w, w') && sid in w'.logs && |w'.logs[sid]| > |w.logs[sid]|
    decreases |RivalIds(w.logs, sid)|
  {
    hide StateOf, Inv, LostLastClaim, WellFormed, Dispatched, IdempotencyKey, CallFor, Released, InSight, RivalIds, Leads;
    InvHolds(cfg, w);
    var id := FreshId(w.tasks.Keys);
    if InSight(cfg.store, w.logs, sid, WORK_LIMIT) {
      var claim := DispatchLeads(cfg, w, id, sid, Order(""));
      w' := World(
        w.logs[sid := Dispatched(w.logs[sid], Order(""), cfg.maxAttempts, claim.occurredAt, 0)], w.tasks,
        w.calls + [CallFor(w.logs[sid], claim)]);
      OrderedIsDone(cfg, w.logs[sid], claim.occurredAt);
    } else {
      var r := FirstMovableRival(cfg, w.logs, sid);
      var claim := DispatchLeads(cfg, w, id, r, Order(""));
      var next := World(
        w.logs[r := Dispatched(w.logs[r], Order(""), cfg.maxAttempts, claim.occurredAt, 0)], w.tasks,
        w.calls + [CallFor(w.logs[r], claim)]);
      OrderedIsDone(cfg, w.logs[r], claim.occurredAt);
      OutOfTheWay(cfg, w.logs, next.logs, sid, r);
      w' := CanBeMoved(cfg, next, sid);
      LeadsFurther(cfg, w, next, w');
    }
  }

  /** With nothing under way, a released request can still be moved exactly when it is not blocked. */
  lemma MovableIff(cfg: Config, w: World, sid: string)
    requires ConfigOk(cfg) && Inv(cfg, w) && Shaped(w) && Quiet(w) && sid in w.logs && Released(w.logs[sid])
    ensures (exists w' :: Leads(cfg, w, w') && sid in w'.logs && w'.logs[sid] != w.logs[sid]) <==> !Blocked(cfg, w.logs, sid)
  {
    hide Inv, Blocked, Quiet, Next, Released;
    if Blocked(cfg, w.logs, sid) {
      forall w' | Leads(cfg, w, w')
        ensures sid in w'.logs && w'.logs[sid] == w.logs[sid]
      {
        var worlds, steps :| PathBetween(cfg, worlds, steps, w, w');
        BlockedForever(cfg, worlds, steps, |steps|, sid);
      }
    } else {
      var w' := CanBeMoved(cfg, w, sid);
    }
  }
}
