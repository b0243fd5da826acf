/** One runner's dispatch of one request, with everybody else at work meanwhile, is still a round of the job for it. */
module Interleaved {
  import opened Prelude
  import opened Events
  import opened Folding
  import opened Repository
  import opened Listing
  import opened Services
  import opened Intake
  import opened Review
  import opened Dispatch
  import opened Protocol
  import opened Runs
  import opened Liveness
  import opened Termination

  function Without(w: World, id: nat): World {
    w.(tasks := w.tasks - {id})
  }

  /** Nobody but `id` is about to append to the log. */
  predicate OnlyOn(w: World, id: nat, log: seq<Event>) {
    !Live(Without(w, id), log)
  }

  /** How far the dispatch of `log` by `id` has come. */
  ghost predicate Underway(cfg: Config, w: World, id: nat, sid: string, log: seq<Event>)
    requires WellFormed(log)
  {
    && id in w.tasks && sid in w.logs && OnlyOn(w, id, w.logs[sid])
    && if w.tasks[id].Claiming? then w.tasks[id].base == log && w.logs[sid] == log
       else exists claim, answer :: HasClaimed(cfg, w, id, sid, log, claim, answer)
  }

  predicate HasClaimed(cfg: Config, w: World, id: nat, sid: string, log: seq<Event>, claim: Event, answer: Answer)
    requires WellFormed(log) && id in w.tasks
  {
    && sid in w.logs && w.logs[sid] == log + [claim] && !answer.Explodes?
    && StateOf(log).seqNo == |log| && IdempotencyKey(StateOf(log)).Some?
    && claim == Claim(StateOf(log), IdempotencyKey(StateOf(log)).value, claim.occurredAt)
    && match w.tasks[id]
       case Writing(p, base, e) =>
         p == SYSTEM && base == log + [claim] && Report(StateOf(log), answer, cfg.maxAttempts, e.occurredAt) == Some(e)
       case Claiming(_) => false
       case Calling(base, c) => base == log && c == claim
       case Awaiting(base, c) => base == log && c == claim
  }

  /** A step of somebody else is a step of the world without `id`. */
  lemma StepWithout(cfg: Config, w: World, s: Step, w': World, id: nat)
    requires ConfigOk(cfg) && Inv(cfg, w) && Shaped(w) && Next(cfg, w, s, w') && s.id != id
    ensures Inv(cfg, Without(w, id)) && Shaped(Without(w, id)) && Next(cfg, Without(w, id), s, Without(w', id))
    ensures id in w.tasks ==> id in w'.tasks && w'.tasks[id] == w.tasks[id]
  {
    hide Decide, Admission, Picks, AfterAppend, AppendAnswer, StateOf, IdempotencyKey, Report, Inv, CallFor;
    TaskDropped(cfg, w, id);
    InvIsShaped(cfg, Without(w, id));
    match s {
      case Submit(i, p, raws, uploads, sid, metas, at) =>
        assert Without(w', id).tasks == Without(w, id).tasks[i := w'.tasks[i]];
      case Command(i, p, sid, expected, cmd, at) =>
        assert Without(w', id).tasks == Without(w, id).tasks[i := w'.tasks[i]];
      case Pick(i, sid, staleAfter, now) =>
        assert Without(w', id).tasks == Without(w, id).tasks[i := w'.tasks[i]];
      case Append(i, at) => AppendWithout(w, i, at, w', id);
      case CallCpi(i) =>
        assert Without(w', id).tasks == Without(w, id).tasks[i := w'.tasks[i]];
      case Hear(i, answer, at) =>
        if i in w'.tasks {
          assert Without(w', id).tasks == Without(w, id).tasks[i := w'.tasks[i]];
        } else {
          assert Without(w', id).tasks == Without(w, id).tasks - {i};
        }
      case Crash(i) =>
        assert Without(w', id).tasks == Without(w, id).tasks - {i};
    }
  }

  lemma AppendWithout(w: World, i: nat, at: Time, w': World, id: nat)
    requires Shaped(w) && i in w.tasks && i != id && Appends(w, i, at, w') && Shaped(Without(w, id))
    ensures Appends(Without(w, id), i, at, Without(w', id))
    ensures id in w.tasks ==> id in w'.tasks && w'.tasks[id] == w.tasks[id]
  {
    hide AfterAppend, AppendAnswer, StateOf, IdempotencyKey;
    if i in w'.tasks {
      assert Without(w', id).tasks == Without(w, id).tasks[i := w'.tasks[i]];
    } else {
      assert Without(w', id).tasks == Without(w, id).tasks - {i};
    }
  }

  lemma ClaimedIsReleased(log: seq<Event>, claim: Event)
    requires WellFormed(log) && WellFormed(log + [claim]) && claim.payload.CpiDispatched?
    ensures Released(log + [claim])
  {
    assert (log + [claim])[..|log|] == log;
  }

  /** The log that `id` works on is released, whatever the stage. */
  lemma UnderwayIsReleased(cfg: Config, w: World, id: nat, sid: string, log: seq<Event>)
    requires ConfigOk(cfg) && Inv(cfg, w) && WellFormed(log) && Released(log) && Underway(cfg, w, id, sid, log)
    ensures WellFormed(w.logs[sid]) && Released(w.logs[sid])
  {
    hide StateOf, Released, OnlyOn, IdempotencyKey, Report;
    InvHolds(cfg, w);
    if !w.tasks[id].Claiming? {
      var claim, answer :| HasClaimed(cfg, w, id, sid, log, claim, answer);
      ClaimedIsReleased(log, claim);
    }
  }

  /** Nobody else's step disturbs the dispatch, as long as nobody else picks the request. */
  lemma OthersLeaveIt(cfg: Config, w: World, s: Step, w': World, id: nat, sid: string, log: seq<Event>)
    requires ConfigOk(cfg) && Inv(cfg, w) && Shaped(w) && Next(cfg, w, s, w') && s.id != id && !(s.Pick? && s.sid == sid)
    requires WellFormed(log) && Released(log) && Underway(cfg, w, id, sid, log)
    ensures Underway(cfg, w', id, sid, log)
  {
    hide StateOf, Released, IdempotencyKey, Report, Next, Live, Inv, Shaped;
    UnderwayIsReleased(cfg, w, id, sid, log);
    StepWithout(cfg, w, s, w', id);
    UnpickedStays(cfg, Without(w, id), s, Without(w', id), sid);
    if !w.tasks[id].Claiming? {
      var claim, answer :| HasClaimed(cfg, w, id, sid, log, claim, answer);
      assert HasClaimed(cfg, w', id, sid, log, claim, answer);
    }
  }

  /** Other tasks lag behind a log that has just grown. */
  lemma OthersLag(cfg: Config, w: World, id: nat, sid: string, log: seq<Event>, tasks: map<nat, Task>)
    requires ConfigOk(cfg) && Inv(cfg, w) && sid in w.logs && |log| > |w.logs[sid]| && log[0].submissionId == sid
    requires forall i <- tasks :: i != id ==> i in w.tasks && tasks[i] == w.tasks[i]
    ensures forall i <- tasks :: i != id ==> !TaskOn(tasks[i], log)
  {
    hide StateOf, LegalNext, IdempotencyKey, Claimable, WellFormed;
    forall i <- tasks | i != id
      ensures !TaskOn(tasks[i], log)
    {
      assert TaskOk(cfg, w.logs, w.tasks[i]);
    }
  }

  lemma ClaimGoesIn(cfg: Config, w: World, at: Time, w': World, id: nat, sid: string, log: seq<Event>)
    requires ConfigOk(cfg) && Inv(cfg, w) && Shaped(w) && id in w.tasks && Appends(w, id, at, w') && WellFormed(log)
    requires Released(log) && Underway(cfg, w, id, sid, log) && w.tasks[id].Claiming?
    ensures Underway(cfg, w', id, sid, log)
  {
    hide StateOf, IdempotencyKey, AfterAppend, AppendAnswer, Inv, LegalNext;
    InvHolds(cfg, w);
    TaskHolds(cfg, w, id);
    ClaimIsLegal(cfg, log, at);
    FoldedProvenance(log);
    var claim := Claim(StateOf(log), IdempotencyKey(StateOf(log)).value, at);
    LegalContinues(cfg, log, claim);
    NextAppends(w.logs, SYSTEM, sid, claim);
    assert HasClaimed(cfg, w', id, sid, log, claim, Order(""));
    assert (log + [claim])[0] == log[0];
    OthersLag(cfg, w, id, sid, log + [claim], w'.tasks);
  }

  lemma TaskHolds(cfg: Config, w: World, id: nat)
    requires cfg.spec.Loaded() && Inv(cfg, w) && id in w.tasks
    ensures TaskOk(cfg, w.logs, w.tasks[id])
  {
  }

  lemma ReportGoesIn(
      cfg: Config, w: World, at: Time, w': World, id: nat, sid: string, log: seq<Event>, claim: Event, answer: Answer)
    requires ConfigOk(cfg) && Inv(cfg, w) && Shaped(w) && id in w.tasks && Appends(w, id, at, w') && WellFormed(log)
    requires HasClaimed(cfg, w, id, sid, log, claim, answer) && w.tasks[id].Writing?
    ensures id !in w'.tasks && sid in w'.logs && !Live(w', w'.logs[sid])
    ensures DispatchedOnce(log, w'.logs[sid], cfg.maxAttempts)
  {
    hide StateOf, IdempotencyKey, AfterAppend, AppendAnswer, Inv, LegalNext, Report;
    InvHolds(cfg, w);
    TaskHolds(cfg, w, id);
    var e := w.tasks[id].event;
    var claimed := log + [claim];
    FoldedProvenance(log);
    assert claimed[0] == log[0];
    LegalContinues(cfg, claimed, e);
    NextAppends(w.logs, SYSTEM, sid, e);
    DispatchedIs(log, answer, cfg.maxAttempts, claim.occurredAt, e.occurredAt);
    assert w'.logs[sid] == Dispatched(log, answer, cfg.maxAttempts, claim.occurredAt, e.occurredAt);
    assert (claimed + [e])[0] == log[0];
    OthersLag(cfg, w, id, sid, claimed + [e], w'.tasks);
  }

  /** Its own step takes the dispatch further, up to the report. */
  lemma OwnStep(cfg: Config, w: World, s: Step, w': World, id: nat, sid: string, log: seq<Event>)
    requires ConfigOk(cfg) && Inv(cfg, w) && Shaped(w) && Next(cfg, w, s, w') && s.id == id
    requires !s.Crash? && !(s.Hear? && s.answer.Explodes?)
    requires WellFormed(log) && Released(log) && Underway(cfg, w, id, sid, log)
    ensures if id in w'.tasks then Underway(cfg, w', id, sid, log)
            else sid in w'.logs && !Live(w', w'.logs[sid]) && DispatchedOnce(log, w'.logs[sid], cfg.maxAttempts)
  {
    hide StateOf, Released, IdempotencyKey, Appends, Inv, Decide, Admission, Picks, DispatchedOnce, CallFor;
    if w.tasks[id].Claiming? {
      assert s.Append?;
      ClaimGoesIn(cfg, w, s.at, w', id, sid, log);
    } else {
      var claim, answer :| HasClaimed(cfg, w, id, sid, log, claim, answer);
      assert Without(w', id).tasks == Without(w, id).tasks || s.Append?;
      match s {
        case Append(_, at) =>
          AppendingTask(w, id, at, w');
          ReportGoesIn(cfg, w, at, w', id, sid, log, claim, answer);
        case CallCpi(_) =>
          assert HasClaimed(cfg, w', id, sid, log, claim, answer);
        case Hear(_, heard, at) =>
          assert Report(StateOf(log), heard, cfg.maxAttempts, at).Some?;
          assert HasClaimed(cfg, w', id, sid, log, claim, heard);
        case _ =>
      }
    }
  }

  lemma PickStarts(cfg: Config, w: World, w': World, id: nat, sid: string, staleAfter: int, now: Time)
    requires ConfigOk(cfg) && Inv(cfg, w) && Shaped(w) && Next(cfg, w, Pick(id, sid, staleAfter, now), w')
    requires !Live(w, w.logs[sid])
    ensures WellFormed(w.logs[sid]) && Released(w.logs[sid]) && Underway(cfg, w', id, sid, w.logs[sid])
    ensures Picks(cfg.store, w.logs, sid, cfg.maxAttempts, staleAfter, now) && IdempotencyKey(StateOf(w.logs[sid])).Some?
  {
    hide StateOf, InSight, IdempotencyKey, Inv;
    InvHolds(cfg, w);
    ClaimIsLegal(cfg, w.logs[sid], now);
    assert Without(w', id).tasks == w.tasks;
  }

  /** The steps after the pick: nobody else picks the request, and the runner neither dies nor meets an unexpected error. */
  predicate NoMishap(steps: seq<Step>, id: nat, sid: string) {
    forall i :: 0 < i < |steps| ==>
      && !(steps[i].Pick? && steps[i].sid == sid) && steps[i] != Crash(id)
      && !(steps[i].Hear? && steps[i].id == id && steps[i].answer.Explodes?)
  }

  lemma {:induction false} StaysUnderway(
      cfg: Config, worlds: seq<World>, steps: seq<Step>, n: nat, id: nat, sid: string, staleAfter: int, now: Time)
    requires ConfigOk(cfg) && IsPath(cfg, worlds, steps) && Inv(cfg, worlds[0]) && 1 <= n <= |steps|
    requires steps[0] == Pick(id, sid, staleAfter, now) && sid in worlds[0].logs && !Live(worlds[0], worlds[0].logs[sid])
    requires NoMishap(steps, id, sid) && forall i :: 0 < i < n ==> id in worlds[i].tasks
    ensures WellFormed(worlds[0].logs[sid]) && Released(worlds[0].logs[sid])
    ensures Picks(cfg.store, worlds[0].logs, sid, cfg.maxAttempts, staleAfter, now)
    ensures if id in worlds[n].tasks then Underway(cfg, worlds[n], id, sid, worlds[0].logs[sid])
            else
              && sid in worlds[n].logs && !Live(worlds[n], worlds[n].logs[sid])
              && IdempotencyKey(StateOf(worlds[0].logs[sid])).Some?
              && DispatchedOnce(worlds[0].logs[sid], worlds[n].logs[sid], cfg.maxAttempts)
  {
    hide Next, Inv, StateOf, Underway, DispatchedOnce, Live, Released, Picks, IdempotencyKey;
    assert Next(cfg, worlds[0], steps[0], worlds[0 + 1]);
    PickStarts(cfg, worlds[0], worlds[1], id, sid, staleAfter, now);
    if n > 1 {
      StaysUnderway(cfg, worlds, steps, n - 1, id, sid, staleAfter, now);
      PathsKeepInv(cfg, worlds, steps, n - 1);
      assert Next(cfg, worlds[n - 1], steps[n - 1], worlds[n - 1 + 1]);
      var log := worlds[0].logs[sid];
      if steps[n - 1].id == id {
        OwnStep(cfg, worlds[n - 1], steps[n - 1], worlds[n], id, sid, log);
      } else {
        OthersLeaveIt(cfg, worlds[n - 1], steps[n - 1], worlds[n], id, sid, log);
        UnderwayHas(cfg, worlds[n], id, sid, log);
      }
    } else {
      UnderwayHas(cfg, worlds[1], id, sid, worlds[0].logs[sid]);
    }
  }

  lemma UnderwayHas(cfg: Config, w: World, id: nat, sid: string, log: seq<Event>)
    requires WellFormed(log) && Underway(cfg, w, id, sid, log)
    ensures id in w.tasks
  {
  }

  /**
   From its pick to its report, with any steps of customers, reviewers and other runners in between, the dispatch of a
   request is a round of the job for it.
   */
  lemma DispatchIsRound(
      cfg: Config, worlds: seq<World>, steps: seq<Step>, id: nat, sid: string, staleAfter: int, now: Time)
    requires ConfigOk(cfg) && IsPath(cfg, worlds, steps) && Inv(cfg, worlds[0]) && |steps| > 1
    requires steps[0] == Pick(id, sid, staleAfter, now) && sid in worlds[0].logs && !Live(worlds[0], worlds[0].logs[sid])
    requires NoMishap(steps, id, sid) && (forall i :: 0 < i < |steps| ==> id in worlds[i].tasks) && id !in worlds[|steps|].tasks
    ensures RoundFor(cfg, Round(worlds[0].logs, worlds[|steps|].logs, now), staleAfter, sid)
    ensures sid in worlds[|steps|].logs && !Live(worlds[|steps|], worlds[|steps|].logs[sid])
  {
    hide Next, Inv, StateOf, Underway, DispatchedOnce, Live, Released, Picks, IdempotencyKey;
    StaysUnderway(cfg, worlds, steps, |steps|, id, sid, staleAfter, now);
    PathsKeepInv(cfg, worlds, steps, |steps|);
    InvIsShaped(cfg, worlds[|steps|]);
  }

  /** Between rounds nobody touches a released request that nobody picks. */
  lemma {:induction false} LeftBetweenRounds(cfg: Config, worlds: seq<World>, steps: seq<Step>, n: nat, sid: string)
    requires ConfigOk(cfg) && IsPath(cfg, worlds, steps) && Inv(cfg, worlds[0]) && n <= |steps| && sid in worlds[0].logs
    requires WellFormed(worlds[0].logs[sid]) && Released(worlds[0].logs[sid]) && !Live(worlds[0], worlds[0].logs[sid])
    requires forall i :: 0 <= i < |steps| ==> !(steps[i].Pick? && steps[i].sid == sid)
    ensures sid in worlds[n].logs && worlds[n].logs[sid] == worlds[0].logs[sid] && !Live(worlds[n], worlds[n].logs[sid])
  {
    hide Next, Inv, StateOf, Live, Released;
    if n > 0 {
      LeftBetweenRounds(cfg, worlds, steps, n - 1, sid);
      PathsKeepInv(cfg, worlds, steps, n - 1);
      assert Next(cfg, worlds[n - 1], steps[n - 1], worlds[n - 1 + 1]);
      UnpickedStays(cfg, worlds[n - 1], steps[n - 1], worlds[n], sid);
    }
  }
}
