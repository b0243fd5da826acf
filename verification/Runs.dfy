/**
 Intake, review and any number of dispatch runners work on one store at once. Each reads a log, takes its time, and then
 appends with the sequence number it had read; any process may die at any point.
 */
module Runs {
  import opened Prelude
  import opened Events
  import opened Folding
  import opened Repository
  import opened Listing
  import opened Validator
  import opened Attachments
  import opened Services
  import opened Review
  import opened Intake
  import opened Dispatch
  import opened Protocol

  /** A call made to CPI: for the claim at `claimSeq`, under which key, with which payload. */
  datatype Call = Call(sid: string, claimSeq: int, key: string, payload: Values)

  /** What a process is about to do, on the log it has read. */
  datatype Task =
    | Writing(p: Principal, base: seq<Event>, event: Event)  // append an event; `base` is empty for a new submission
    | Claiming(base: seq<Event>)                             // append the claim of a picked submission
    | Calling(base: seq<Event>, claim: Event)                // call CPI: the claim was appended
    | Awaiting(base: seq<Event>, claim: Event)               // hear from CPI: the call was made

  datatype World = World(logs: Logs, tasks: map<nat, Task>, calls: seq<Call>)

  datatype Step =
    | Submit(id: nat, p: Principal, raws: Raws, uploads: seq<Upload>, sid: string, metas: seq<AttachmentMeta>, at: Time)
    | Command(id: nat, p: Principal, sid: string, expected: int, cmd: Review.Command, at: Time)
    | Pick(id: nat, sid: string, staleAfter: int, now: Time)
    | Append(id: nat, at: Time)
    | CallCpi(id: nat)
    | Hear(id: nat, answer: Answer, at: Time)
    | Crash(id: nat)

  /** The logs and the logs that processes have read are well formed. */
  predicate Shaped(w: World) {
    && StoreOk(w.logs)
    && forall id <- w.tasks :: !w.tasks[id].Writing? ==> WellFormed(w.tasks[id].base) && StateOf(w.tasks[id].base).seqNo >= 0
  }

  const START := World(map[], map[], [])

  predicate Next(cfg: Config, w: World, s: Step, w': World)
    requires cfg.spec.Loaded() && Shaped(w)
  {
    match s
    case Submit(id, p, raws, uploads, sid, metas, at) =>
      && id !in w.tasks && Admission(cfg, p, raws, uploads).Some?
      && var (account, values) := Admission(cfg, p, raws, uploads).value;
         w' == w.(tasks := w.tasks[id := Writing(p, [], SubmittedEvent(sid, account, p, values, metas, at))])
    case Command(id, p, sid, expected, cmd, at) =>
      && id !in w.tasks && EventsAnswer(w.logs, p, sid).Ok?
      && Decide(cfg, p, w.logs[sid], expected, cmd, at).Ok?
      && w' == w.(tasks := w.tasks[id := Writing(p, w.logs[sid], Decide(cfg, p, w.logs[sid], expected, cmd, at).value)])
    case Pick(id, sid, staleAfter, now) =>
      && id !in w.tasks && sid in w.logs && Picks(cfg.store, w.logs, sid, cfg.maxAttempts, staleAfter, now)
      && w' == w.(tasks := w.tasks[id := Claiming(w.logs[sid])]) && StateOf(w.logs[sid]).seqNo >= 0
    case Append(id, at) => id in w.tasks && Appends(w, id, at, w')
    case CallCpi(id) =>
      && id in w.tasks && w.tasks[id].Calling?
      && var Calling(base, claim) := w.tasks[id];
         && claim.payload.CpiDispatched?
         && w' == w.(tasks := w.tasks[id := Awaiting(base, claim)], calls := w.calls + [CallFor(base, claim)])
    case Hear(id, answer, at) =>
      && id in w.tasks && w.tasks[id].Awaiting?
      && var Awaiting(base, claim) := w.tasks[id];
         var report := Report(StateOf(base), answer, cfg.maxAttempts, at);
         w' == w.(tasks := if report.None? then w.tasks - {id} else w.tasks[id := Writing(SYSTEM, base + [claim], report.value)])
    case Crash(id) => w' == w.(tasks := w.tasks - {id})
  }

  function CallFor(base: seq<Event>, claim: Event): Call
    requires WellFormed(base) && claim.payload.CpiDispatched?
  {
    var key := claim.payload.idempotencyKey;
    Call(claim.submissionId, claim.seqNo, key, BuildPayload(StateOf(base), key))
  }

  /** One append through the store; a runner whose claim is refused gives the submission up. */
  predicate Appends(w: World, id: nat, at: Time, w': World)
    requires Shaped(w) && id in w.tasks
  {
    match w.tasks[id]
    case Writing(p, base, e) =>
      w' == World(AfterAppend(w.logs, p, e.submissionId, e.seqNo - 1, e), w.tasks - {id}, w.calls)
    case Claiming(base) =>
      && IdempotencyKey(StateOf(base)).Some?
      && var claim := Claim(StateOf(base), IdempotencyKey(StateOf(base)).value, at);
         var answer := AppendAnswer(w.logs, SYSTEM, claim.submissionId, claim.seqNo - 1, claim);
         w' == World(
                 AfterAppend(w.logs, SYSTEM, claim.submissionId, claim.seqNo - 1, claim),
                 if answer.Ok? then w.tasks[id := Calling(base, claim)] else w.tasks - {id}, w.calls)
    case _ => false
  }

  ghost predicate IsPath(cfg: Config, worlds: seq<World>, steps: seq<Step>)
    requires cfg.spec.Loaded()
  {
    && |worlds| == |steps| + 1
    && forall i :: 0 <= i < |steps| ==> Shaped(worlds[i]) && Next(cfg, worlds[i], steps[i], worlds[i + 1])
  }

  ghost predicate IsRun(cfg: Config, worlds: seq<World>, steps: seq<Step>)
    requires cfg.spec.Loaded()
  {
    IsPath(cfg, worlds, steps) && worlds[0] == START
  }

  // -------------------------------------------------------------- the invariant

  predicate GoodStore(cfg: Config, logs: Logs)
    requires cfg.spec.Loaded()
  {
    forall sid <- logs :: GoodLog(cfg, logs[sid]) && logs[sid][0].submissionId == sid
  }

  /** The log that was read is still the beginning of its log. */
  predicate OnLog(logs: Logs, base: seq<Event>) {
    |base| > 0 && base[0].submissionId in logs && base <= logs[base[0].submissionId]
  }

  predicate TaskOk(cfg: Config, logs: Logs, t: Task)
    requires cfg.spec.Loaded()
  {
    match t
    case Writing(p, base, e) =>
      if base == [] then WellFormed([e]) else WellFormed(base) && OnLog(logs, base) && LegalNext(cfg, base, e)
    case Claiming(base) => WellFormed(base) && OnLog(logs, base) && Claimable(StateOf(base), cfg.maxAttempts)
    case Calling(base, claim) => Claimed(logs, base, claim)
    case Awaiting(base, claim) => Claimed(logs, base, claim)
  }

  predicate Claimed(logs: Logs, base: seq<Event>, claim: Event) {
    && WellFormed(base) && OnLog(logs, base + [claim]) && StateOf(base).seqNo == |base|
    && IdempotencyKey(StateOf(base)).Some?
    && claim == Claim(StateOf(base), IdempotencyKey(StateOf(base)).value, claim.occurredAt)
  }

  /** The call was made for the claim at its position, with the payload of the log before it. */
  predicate CallOk(logs: Logs, c: Call) {
    && c.sid in logs && 2 <= c.claimSeq <= |logs[c.sid]|
    && var base, claim := logs[c.sid][..c.claimSeq - 1], logs[c.sid][c.claimSeq - 1];
       WellFormed(base) && claim.payload.CpiDispatched? && c == CallFor(base, claim)
  }

  /** No claim has two calls, or a call made and one to come. */
  predicate OneCallPerClaim(w: World) {
    && (forall i, j :: 0 <= i < j < |w.calls| ==> !(w.calls[i].sid == w.calls[j].sid && w.calls[i].claimSeq == w.calls[j].claimSeq))
    && (forall id <- w.tasks, i | w.tasks[id].Calling? && 0 <= i < |w.calls| ::
          !(w.calls[i].sid == w.tasks[id].claim.submissionId && w.calls[i].claimSeq == w.tasks[id].claim.seqNo))
    && (forall id <- w.tasks, id' <- w.tasks | w.tasks[id].Calling? && w.tasks[id'].Calling? && id != id' ::
          !(w.tasks[id].claim.submissionId == w.tasks[id'].claim.submissionId && w.tasks[id].claim.seqNo == w.tasks[id'].claim.seqNo))
  }

  predicate Inv(cfg: Config, w: World)
    requires cfg.spec.Loaded()
  {
    && GoodStore(cfg, w.logs)
    && (forall id <- w.tasks :: TaskOk(cfg, w.logs, w.tasks[id]))
    && (forall i :: 0 <= i < |w.calls| ==> CallOk(w.logs, w.calls[i]))
    && OneCallPerClaim(w)
  }

  lemma InvHolds(cfg: Config, w: World)
    requires cfg.spec.Loaded() && Inv(cfg, w)
    ensures GoodStore(cfg, w.logs)
  {
  }

  lemma GoodStoreIsOk(cfg: Config, logs: Logs)
    requires cfg.spec.Loaded() && GoodStore(cfg, logs)
    ensures StoreOk(logs)
  {
  }

  lemma TasksStable(cfg: Config, logs: Logs, logs': Logs, tasks: map<nat, Task>)
    requires cfg.spec.Loaded() && Grows(logs, logs')
    requires forall id <- tasks :: TaskOk(cfg, logs, tasks[id])
    ensures forall id <- tasks :: TaskOk(cfg, logs', tasks[id])
  {
    hide LegalNext, WellFormed, IdempotencyKey, Claim, Claimable;
  }

  lemma CallsStable(logs: Logs, logs': Logs, calls: seq<Call>)
    requires Grows(logs, logs')
    requires forall i :: 0 <= i < |calls| ==> CallOk(logs, calls[i])
    ensures forall i :: 0 <= i < |calls| ==> CallOk(logs', calls[i])
  {
    hide WellFormed, CallFor;
    forall i | 0 <= i < |calls|
      ensures CallOk(logs', calls[i])
    {
      var c := calls[i];
      var log, log' := logs[c.sid], logs'[c.sid];
      assert log'[..c.claimSeq - 1] == log[..c.claimSeq - 1];
    }
  }

  lemma LegalContinues(cfg: Config, log: seq<Event>, e: Event)
    requires cfg.spec.Loaded() && WellFormed(log) && LegalNext(cfg, log, e)
    ensures Continues(log, e)
  {
    hide MayOverwrite, MayClaim, Passes, EndsInClaim, StateOf;
  }

  /** Accepting a legal event keeps the store good. */
  lemma AppendKeepsGood(cfg: Config, logs: Logs, p: Principal, base: seq<Event>, e: Event)
    requires cfg.spec.Loaded() && GoodStore(cfg, logs) && TaskOk(cfg, logs, Writing(p, base, e))
    ensures var logs' := AfterAppend(logs, p, e.submissionId, e.seqNo - 1, e);
            && GoodStore(cfg, logs') && Grows(logs, logs')
            && (AppendAnswer(logs, p, e.submissionId, e.seqNo - 1, e).Ok? ==>
                  logs' == logs[e.submissionId := base + [e]]
                  && (if base == [] then e.submissionId !in logs else e.submissionId in logs && logs[e.submissionId] == base))
  {
    if base != [] {
      LegalContinues(cfg, base, e);
    }
    hide LegalNext, StateOf;
    if AppendAnswer(logs, p, e.submissionId, e.seqNo - 1, e).Ok? {
      AppendGrows(logs, e);
      if base == [] {
        assert [] + [e] == [e];
      } else {
        assert base == logs[e.submissionId];
        GoodExtend(cfg, base, e);
      }
    }
  }

  lemma RefusedLeaves(logs: Logs, p: Principal, e: Event)
    requires StoreOk(logs)
    ensures AppendAnswer(logs, p, e.submissionId, e.seqNo - 1, e).Err? ==>
              AfterAppend(logs, p, e.submissionId, e.seqNo - 1, e) == logs
  {
    hide AppendAnswer;
  }

  // -------------------------------------------------- every step preserves it

  lemma BaseIsGood(cfg: Config, logs: Logs, base: seq<Event>)
    requires cfg.spec.Loaded() && GoodStore(cfg, logs) && OnLog(logs, base)
    ensures GoodLog(cfg, base)
  {
    var log := logs[base[0].submissionId];
    GoodPrefix(cfg, log, |base|);
    assert log[..|base|] == base;
  }

  lemma TaskAdded(cfg: Config, w: World, id: nat, t: Task)
    requires cfg.spec.Loaded() && Inv(cfg, w) && TaskOk(cfg, w.logs, t) && !t.Calling?
    ensures Inv(cfg, w.(tasks := w.tasks[id := t]))
  {
    hide GoodStore, TaskOk, CallOk;
  }

  lemma TaskDropped(cfg: Config, w: World, id: nat)
    requires cfg.spec.Loaded() && Inv(cfg, w)
    ensures Inv(cfg, w.(tasks := w.tasks - {id}))
  {
    hide GoodStore, TaskOk, CallOk;
  }

  lemma LogsGrown(cfg: Config, w: World, logs: Logs)
    requires cfg.spec.Loaded() && Inv(cfg, w) && GoodStore(cfg, logs) && Grows(w.logs, logs)
    ensures Inv(cfg, w.(logs := logs))
  {
    hide GoodStore, TaskOk, CallOk, Grows;
    TasksStable(cfg, w.logs, logs, w.tasks);
    CallsStable(w.logs, logs, w.calls);
  }

  lemma WritingStep(cfg: Config, w: World, id: nat, at: Time, w': World)
    requires ConfigOk(cfg) && Inv(cfg, w) && Shaped(w) && id in w.tasks && w.tasks[id].Writing? && Appends(w, id, at, w')
    ensures Inv(cfg, w') && Grows(w.logs, w'.logs)
  {
    var Writing(p, base, e) := w.tasks[id];
    hide GoodStore, TaskOk, AfterAppend, Grows, Shaped;
    assert TaskOk(cfg, w.logs, w.tasks[id]);
    AppendKeepsGood(cfg, w.logs, p, base, e);
    hide Inv;
    LogsGrown(cfg, w, w'.logs);
    TaskDropped(cfg, w.(logs := w'.logs), id);
  }

  /** A claim just accepted is later in its log than any claim made before. */
  lemma NewClaim(cfg: Config, w: World, sid: string, n: int)
    requires cfg.spec.Loaded() && Inv(cfg, w) && sid in w.logs && n > |w.logs[sid]|
    ensures forall i :: 0 <= i < |w.calls| ==> !(w.calls[i].sid == sid && w.calls[i].claimSeq == n)
    ensures forall id <- w.tasks | w.tasks[id].Calling? ::
              !(w.tasks[id].claim.submissionId == sid && w.tasks[id].claim.seqNo == n)
  {
    hide GoodStore, WellFormed, IdempotencyKey, CallFor, OneCallPerClaim;
    forall id <- w.tasks | w.tasks[id].Calling?
      ensures !(w.tasks[id].claim.submissionId == sid && w.tasks[id].claim.seqNo == n)
    {
      var Calling(base, claim) := w.tasks[id];
      assert Claimed(w.logs, base, claim);
      ClaimedPosition(w.logs, base, claim);
    }
    assert forall i :: 0 <= i < |w.calls| ==> CallOk(w.logs, w.calls[i]);
  }

  lemma ClaimedPosition(logs: Logs, base: seq<Event>, claim: Event)
    requires Claimed(logs, base, claim)
    ensures claim.submissionId == base[0].submissionId && claim.seqNo == |base| + 1
    ensures claim.submissionId in logs && claim.seqNo <= |logs[claim.submissionId]|
    ensures claim.payload.CpiDispatched? && WellFormed(base)
  {
    hide IdempotencyKey;
    FoldedProvenance(base);
    assert (base + [claim])[0] == base[0];
  }

  lemma CallingAdded(cfg: Config, w: World, id: nat, base: seq<Event>, claim: Event)
    requires cfg.spec.Loaded() && Inv(cfg, w) && Claimed(w.logs, base, claim)
    requires forall i :: 0 <= i < |w.calls| ==> !(w.calls[i].sid == claim.submissionId && w.calls[i].claimSeq == claim.seqNo)
    requires forall i <- w.tasks | w.tasks[i].Calling? ::
               !(w.tasks[i].claim.submissionId == claim.submissionId && w.tasks[i].claim.seqNo == claim.seqNo)
    ensures Inv(cfg, w.(tasks := w.tasks[id := Calling(base, claim)]))
  {
    hide GoodStore, CallOk, Claimed;
  }

  /** The claim of a picked submission is legal, so the append either is refused or extends exactly the log that was read. */
  lemma ClaimAppend(cfg: Config, logs: Logs, base: seq<Event>, at: Time)
    requires ConfigOk(cfg) && GoodStore(cfg, logs) && TaskOk(cfg, logs, Claiming(base))
    ensures WellFormed(base) && IdempotencyKey(StateOf(base)).Some? && StateOf(base).seqNo == |base| && StoreOk(logs)
    ensures var claim := Claim(StateOf(base), IdempotencyKey(StateOf(base)).value, at);
            var logs' := AfterAppend(logs, SYSTEM, claim.submissionId, claim.seqNo - 1, claim);
            && GoodStore(cfg, logs') && Grows(logs, logs')
            && (AppendAnswer(logs, SYSTEM, claim.submissionId, claim.seqNo - 1, claim).Ok? ==>
                  claim.submissionId in logs && claim.seqNo == |logs[claim.submissionId]| + 1 && Claimed(logs', base, claim))
  {
    hide AfterAppend, AppendAnswer, LegalNext, IdempotencyKey, StateOf, GoodLog;
    GoodStoreIsOk(cfg, logs);
    BaseIsGood(cfg, logs, base);
    ClaimIsLegal(cfg, base, at);
    var claim := Claim(StateOf(base), IdempotencyKey(StateOf(base)).value, at);
    FoldedProvenance(base);
    AppendKeepsGood(cfg, logs, SYSTEM, base, claim);
    assert (base + [claim])[0] == base[0];
  }

  lemma ClaimingStep(cfg: Config, w: World, id: nat, at: Time, w': World)
    requires ConfigOk(cfg) && Inv(cfg, w) && Shaped(w) && id in w.tasks && w.tasks[id].Claiming? && Appends(w, id, at, w')
    ensures Inv(cfg, w') && Grows(w.logs, w'.logs)
  {
    var base := w.tasks[id].base;
    hide GoodStore, TaskOk, AfterAppend, AppendAnswer, Grows, Shaped, IdempotencyKey, StateOf, WellFormed, Claimed;
    assert TaskOk(cfg, w.logs, Claiming(base));
    ClaimAppend(cfg, w.logs, base, at);
    var claim := Claim(StateOf(base), IdempotencyKey(StateOf(base)).value, at);
    hide Inv;
    LogsGrown(cfg, w, w'.logs);
    if AppendAnswer(w.logs, SYSTEM, claim.submissionId, claim.seqNo - 1, claim).Ok? {
      NewClaim(cfg, w, claim.submissionId, claim.seqNo);
      CallingAdded(cfg, w.(logs := w'.logs), id, base, claim);
    } else {
      TaskDropped(cfg, w.(logs := w'.logs), id);
    }
  }

  lemma CallMade(cfg: Config, w: World, id: nat)
    requires cfg.spec.Loaded() && Inv(cfg, w) && id in w.tasks && w.tasks[id].Calling?
    requires var Calling(base, claim) := w.tasks[id];
             && WellFormed(base) && claim.payload.CpiDispatched? && CallOk(w.logs, CallFor(base, claim))
    ensures var Calling(base, claim) := w.tasks[id];
            Inv(cfg, w.(tasks := w.tasks[id := Awaiting(base, claim)], calls := w.calls + [CallFor(base, claim)]))
  {
    hide GoodStore, CallOk, Claimed, BuildPayload, StateOf, LegalNext, WellFormed, OnLog;
  }

  lemma CallStep(cfg: Config, w: World, id: nat, w': World)
    requires ConfigOk(cfg) && Inv(cfg, w) && Shaped(w) && Next(cfg, w, CallCpi(id), w')
    ensures Inv(cfg, w') && w'.logs == w.logs
  {
    var Calling(base, claim) := w.tasks[id];
    hide GoodStore, StateOf, WellFormed, Claimed, Shaped, CallFor, CallOk;
    assert TaskOk(cfg, w.logs, w.tasks[id]);
    ClaimedPosition(w.logs, base, claim);
    ClaimedIsCallOk(w.logs, base, claim);
    CallMade(cfg, w, id);
  }

  lemma ClaimedIsCallOk(logs: Logs, base: seq<Event>, claim: Event)
    requires Claimed(logs, base, claim) && claim.payload.CpiDispatched? && claim.seqNo == |base| + 1
    requires claim.submissionId == base[0].submissionId
    ensures CallOk(logs, CallFor(base, claim))
  {
    hide IdempotencyKey, StateOf;
    var log := logs[base[0].submissionId];
    assert log[..|base|] == base && log[|base|] == claim;
  }

  lemma ReportTask(cfg: Config, logs: Logs, base: seq<Event>, claim: Event, answer: Answer, at: Time)
    requires cfg.spec.Loaded() && Claimed(logs, base, claim)
    ensures var report := Report(StateOf(base), answer, cfg.maxAttempts, at);
            report.Some? ==> TaskOk(cfg, logs, Writing(SYSTEM, base + [claim], report.value))
  {
    hide LegalNext, IdempotencyKey, StateOf, Report;
    ReportIsLegal(cfg, base, IdempotencyKey(StateOf(base)).value, answer, claim.occurredAt, at);
  }

  lemma HearStep(cfg: Config, w: World, id: nat, answer: Answer, at: Time, w': World)
    requires ConfigOk(cfg) && Inv(cfg, w) && Shaped(w) && Next(cfg, w, Hear(id, answer, at), w')
    ensures Inv(cfg, w') && w'.logs == w.logs
  {
    var Awaiting(base, claim) := w.tasks[id];
    hide GoodStore, StateOf, WellFormed, Claimed, Shaped, Report, CallOk;
    assert TaskOk(cfg, w.logs, w.tasks[id]);
    ReportTask(cfg, w.logs, base, claim, answer, at);
    hide Inv, TaskOk;
    var report := Report(StateOf(base), answer, cfg.maxAttempts, at);
    if report.None? {
      TaskDropped(cfg, w, id);
    } else {
      TaskAdded(cfg, w, id, Writing(SYSTEM, base + [claim], report.value));
    }
  }

  lemma CommandOk(cfg: Config, logs: Logs, p: Principal, sid: string, expected: int, cmd: Review.Command, at: Time)
    requires ConfigOk(cfg) && GoodStore(cfg, logs) && sid in logs && Decide(cfg, p, logs[sid], expected, cmd, at).Ok?
    ensures TaskOk(cfg, logs, Writing(p, logs[sid], Decide(cfg, p, logs[sid], expected, cmd, at).value))
  {
    hide LegalNext, StateOf, Decide;
    DecidedIsLegal(cfg, p, logs[sid], expected, cmd, at);
  }

  lemma InvIsShaped(cfg: Config, w: World)
    requires cfg.spec.Loaded() && Inv(cfg, w)
    ensures Shaped(w)
  {
    hide LegalNext, IdempotencyKey, StateOf, GoodLog, CallOk, OneCallPerClaim;
    assert StoreOk(w.logs) by { GoodStoreIsOk(cfg, w.logs); }
    forall id <- w.tasks | !w.tasks[id].Writing?
      ensures WellFormed(w.tasks[id].base) && StateOf(w.tasks[id].base).seqNo >= 0
    {
      assert TaskOk(cfg, w.logs, w.tasks[id]);
      FoldedPosition(w.tasks[id].base);
    }
  }

  lemma PickOk(cfg: Config, logs: Logs, sid: string, staleAfter: int, now: Time)
    requires cfg.spec.Loaded() && GoodStore(cfg, logs) && sid in logs && WellFormed(logs[sid])
    requires IsWork(StateOf(logs[sid]), cfg.maxAttempts, staleAfter, now)
    ensures TaskOk(cfg, logs, Claiming(logs[sid]))
  {
    hide StateOf, GoodLog;
  }

  lemma StartingStep(cfg: Config, w: World, s: Step, w': World)
    requires ConfigOk(cfg) && Inv(cfg, w) && Shaped(w) && Next(cfg, w, s, w') && (s.Submit? || s.Command? || s.Pick?)
    ensures Inv(cfg, w') && w'.logs == w.logs
  {
    hide StateOf, Decide, Admission, IsWork, InSight, GoodStore, TaskOk, CallOk, OneCallPerClaim, WellFormed, IdempotencyKey;
    match s {
      case Submit(id, p, raws, uploads, sid, metas, at) =>
        EmptyBaseOk(cfg, w.logs, p, w'.tasks[id].event);
        TaskAdded(cfg, w, id, w'.tasks[id]);
      case Command(id, p, sid, expected, cmd, at) =>
        CommandOk(cfg, w.logs, p, sid, expected, cmd, at);
        TaskAdded(cfg, w, id, w'.tasks[id]);
      case Pick(id, sid, staleAfter, now) =>
        PickOk(cfg, w.logs, sid, staleAfter, now);
        TaskAdded(cfg, w, id, w'.tasks[id]);
    }
  }

  lemma EmptyBaseOk(cfg: Config, logs: Logs, p: Principal, e: Event)
    requires cfg.spec.Loaded() && e.seqNo == 1 && e.payload.Submitted?
    ensures TaskOk(cfg, logs, Writing(p, [], e))
  {
    WellFormedSingle(e);
  }

  /** One step of any process keeps the invariant, and logs only grow. */
  lemma NextKeepsInv(cfg: Config, w: World, s: Step, w': World)
    requires ConfigOk(cfg) && Inv(cfg, w) && Shaped(w) && Next(cfg, w, s, w')
    ensures Inv(cfg, w') && Grows(w.logs, w'.logs)
  {
    hide Appends, Shaped, Inv, IdempotencyKey, CallFor, BuildPayload, StateOf, Decide, IsWork, InSight, Report, Admission;
    match s {
      case Append(id, at) =>
        if w.tasks[id].Writing? {
          WritingStep(cfg, w, id, at, w');
        } else {
          AppendingTask(w, id, at, w');
          ClaimingStep(cfg, w, id, at, w');
        }
      case CallCpi(id) => CallStep(cfg, w, id, w');
      case Hear(id, answer, at) => HearStep(cfg, w, id, answer, at, w');
      case Crash(id) => TaskDropped(cfg, w, id);
      case _ => StartingStep(cfg, w, s, w');
    }
  }

  lemma AppendingTask(w: World, id: nat, at: Time, w': World)
    requires Shaped(w) && id in w.tasks && Appends(w, id, at, w')
    ensures w.tasks[id].Writing? || w.tasks[id].Claiming?
  {
    hide StateOf, AfterAppend, AppendAnswer;
  }

  lemma {:induction false} PathsKeepInv(cfg: Config, worlds: seq<World>, steps: seq<Step>, n: nat)
    requires ConfigOk(cfg) && IsPath(cfg, worlds, steps) && Inv(cfg, worlds[0]) && n <= |steps|
    ensures Inv(cfg, worlds[n]) && Grows(worlds[0].logs, worlds[n].logs)
  {
    hide Next, Inv, Shaped;
    if n > 0 {
      PathsKeepInv(cfg, worlds, steps, n - 1);
      assert Next(cfg, worlds[n - 1], steps[n - 1], worlds[n - 1 + 1]);
      NextKeepsInv(cfg, worlds[n - 1], steps[n - 1], worlds[n]);
    }
  }

  /** The invariant holds throughout every run. */
  lemma RunsKeepInv(cfg: Config, worlds: seq<World>, steps: seq<Step>, n: nat)
    requires ConfigOk(cfg) && IsRun(cfg, worlds, steps) && n <= |steps|
    ensures Inv(cfg, worlds[n])
  {
    hide Next, Inv, Shaped;
    StartIsOk(cfg);
    PathsKeepInv(cfg, worlds, steps, n);
  }

  lemma StartIsOk(cfg: Config)
    requires cfg.spec.Loaded()
    ensures Inv(cfg, START)
  {
  }
}
