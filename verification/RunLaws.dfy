/** What holds of every run of intake, review and the dispatch runners. */
module RunLaws {
  import opened Prelude
  import opened Events
  import opened Folding
  import opened Repository
  import opened Validator
  import opened Attachments
  import opened Services
  import opened Review
  import opened Intake
  import opened Dispatch
  import opened Protocol
  import opened LogLaws
  import opened Runs

  // ------------------------------------------------------------- calls to CPI

  /** The call is for the validation at `v`: its key names it, and it sends the values that held there. */
  ghost predicate IsFor(logs: Logs, c: Call, v: int) {
    && c.sid in logs && 1 < v < c.claimSeq <= |logs[c.sid]| && logs[c.sid][v - 1].payload.Validated?
    && c.key == KeyText(c.sid, v)
    && var log := logs[c.sid][..v]; WellFormed(log) && Sends(c.payload, c.key, log)
  }

  lemma CallIsFor(cfg: Config, logs: Logs, c: Call) returns (v: int)
    requires ConfigOk(cfg) && GoodStore(cfg, logs) && CallOk(logs, c)
    ensures IsFor(logs, c, v) && StateOf(logs[c.sid][..c.claimSeq - 1]).validatedSeq == Some(v)
  {
    hide KeyText, StateOf, Sends;
    var log, n := logs[c.sid], c.claimSeq - 1;
    GoodPrefix(cfg, log, n);
    ClaimState(cfg, log[..n], log[n]);
    ValidationPosition(log[..n]);
    KeyOfLog(log[..n]);
    v := StateOf(log[..n]).validatedSeq.value;
    ValuesSinceValidation(cfg, log[..n]);
    assert log[..n][..v] == log[..v];
    FoldedProvenance(log[..n]);
    FoldedProvenance(log[..v]);
    PayloadSends(log[..v], c.key);
  }

  /** Every call carries the values folded at the validation that its key names. */
  lemma CallsCarryValidatedValues(cfg: Config, worlds: seq<World>, steps: seq<Step>, i: nat)
    requires ConfigOk(cfg) && IsRun(cfg, worlds, steps) && i < |worlds[|steps|].calls|
    ensures exists v :: IsFor(worlds[|steps|].logs, worlds[|steps|].calls[i], v)
  {
    hide Next, Shaped, CallOk, IsFor;
    RunsKeepInv(cfg, worlds, steps, |steps|);
    var v := CallIsFor(cfg, worlds[|steps|].logs, worlds[|steps|].calls[i]);
  }

  /** Two calls have the same key exactly when they are for the same validation, and then the same payload. */
  lemma KeysFixPayloads(cfg: Config, worlds: seq<World>, steps: seq<Step>, i: nat, j: nat)
    requires ConfigOk(cfg) && IsRun(cfg, worlds, steps) && i < |worlds[|steps|].calls| && j < |worlds[|steps|].calls|
    ensures var w := worlds[|steps|];
            var a, b := w.calls[i], w.calls[j];
            && (a.key == b.key ==> a.payload == b.payload)
            && forall v, v' :: IsFor(w.logs, a, v) && IsFor(w.logs, b, v') ==> (a.key == b.key <==> a.sid == b.sid && v == v')
  {
    hide Next, Shaped, CallOk;
    RunsKeepInv(cfg, worlds, steps, |steps|);
    var w := worlds[|steps|];
    var a, b := w.calls[i], w.calls[j];
    var u := CallIsFor(cfg, w.logs, a);
    var u' := CallIsFor(cfg, w.logs, b);
    if a.key == b.key {
      KeysDistinct(a.sid, u, b.sid, u');
      SendsOne(a.payload, b.payload, a.key, w.logs[a.sid][..u]);
    }
    forall v, v' | IsFor(w.logs, a, v) && IsFor(w.logs, b, v') && a.key == b.key
      ensures a.sid == b.sid && v == v'
    {
      KeysDistinct(a.sid, v, b.sid, v');
    }
  }

  function CallsUnder(calls: seq<Call>, key: string): nat {
    if |calls| == 0 then 0
    else CallsUnder(calls[..|calls| - 1], key) + if calls[|calls| - 1].key == key then 1 else 0
  }

  function AttemptOf(logs: Logs, c: Call): int
    requires CallOk(logs, c)
  {
    logs[c.sid][c.claimSeq - 1].payload.attempt
  }

  lemma AttemptsDiffer(cfg: Config, logs: Logs, a: Call, b: Call)
    requires ConfigOk(cfg) && GoodStore(cfg, logs) && CallOk(logs, a) && CallOk(logs, b)
    requires a.key == b.key && !(a.sid == b.sid && a.claimSeq == b.claimSeq)
    ensures AttemptOf(logs, a) != AttemptOf(logs, b)
  {
    hide KeyText, StateOf, GoodStore;
    var v := CallIsFor(cfg, logs, a);
    var v' := CallIsFor(cfg, logs, b);
    KeysDistinct(a.sid, v, b.sid, v');
    SameLogAttempts(cfg, logs, a, b);
  }

  lemma SameLogAttempts(cfg: Config, logs: Logs, a: Call, b: Call)
    requires ConfigOk(cfg) && GoodStore(cfg, logs) && CallOk(logs, a) && CallOk(logs, b)
    requires a.key == b.key && a.sid == b.sid && a.claimSeq != b.claimSeq
    ensures AttemptOf(logs, a) != AttemptOf(logs, b)
  {
    hide StateOf, GoodLog, BuildPayload;
    if a.claimSeq < b.claimSeq {
      AttemptsGrow(cfg, logs[a.sid], a.claimSeq - 1, b.claimSeq - 1);
    } else {
      AttemptsGrow(cfg, logs[a.sid], b.claimSeq - 1, a.claimSeq - 1);
    }
  }

  lemma AttemptInRange(cfg: Config, logs: Logs, c: Call)
    requires ConfigOk(cfg) && GoodStore(cfg, logs) && CallOk(logs, c)
    ensures 1 <= AttemptOf(logs, c) <= cfg.maxAttempts
  {
    hide StateOf, GoodLog, BuildPayload;
    AttemptsAreNumbered(cfg, logs[c.sid], c.claimSeq - 1);
  }

  function UpTo(n: nat): (s: set<int>)
    ensures |s| == n && forall k :: k in s <==> 1 <= k <= n
  {
    if n == 0 then {} else UpTo(n - 1) + {n}
  }

  lemma {:induction false} CountAttempts(cfg: Config, w: World, n: nat, key: string) returns (used: set<int>)
    requires ConfigOk(cfg) && Inv(cfg, w) && n <= |w.calls|
    ensures |used| == CallsUnder(w.calls[..n], key)
    ensures forall k <- used :: exists i ::
              0 <= i < n && w.calls[i].key == key && CallOk(w.logs, w.calls[i]) && AttemptOf(w.logs, w.calls[i]) == k
  {
    hide GoodStore, TaskOk, CallOk, AttemptOf;
    if n == 0 {
      used := {};
    } else {
      used := CountAttempts(cfg, w, n - 1, key);
      assert w.calls[..n][..n - 1] == w.calls[..n - 1];
      var c := w.calls[n - 1];
      if c.key == key {
        forall k <- used
          ensures k != AttemptOf(w.logs, c)
        {
          var i :| 0 <= i < n - 1 && w.calls[i].key == key && CallOk(w.logs, w.calls[i]) && AttemptOf(w.logs, w.calls[i]) == k;
          AttemptsDiffer(cfg, w.logs, w.calls[i], c);
        }
        used := used + {AttemptOf(w.logs, c)};
      }
    }
  }

  /** CPI is called at most `maxAttempts` times under one key, by however many runners. */
  lemma CallsPerKeyAreBounded(cfg: Config, worlds: seq<World>, steps: seq<Step>, key: string)
    requires ConfigOk(cfg) && IsRun(cfg, worlds, steps)
    ensures CallsUnder(worlds[|steps|].calls, key) <= cfg.maxAttempts
  {
    hide Next, Shaped, CallOk, GoodStore, TaskOk, AttemptOf;
    RunsKeepInv(cfg, worlds, steps, |steps|);
    var w := worlds[|steps|];
    var used := CountAttempts(cfg, w, |w.calls|, key);
    assert w.calls[..|w.calls|] == w.calls;
    forall k <- used
      ensures k in UpTo(cfg.maxAttempts)
    {
      var i :| 0 <= i < |w.calls| && w.calls[i].key == key && CallOk(w.logs, w.calls[i]) && AttemptOf(w.logs, w.calls[i]) == k;
      AttemptInRange(cfg, w.logs, w.calls[i]);
    }
    SubsetSize(used, UpTo(cfg.maxAttempts));
  }

  function ValidationSeqs(log: seq<Event>): set<int> {
    set i | 0 <= i < |log| && log[i].payload.Validated? :: i + 1
  }

  function KeyTexts(sid: string, seqs: set<int>): set<string> {
    set v | v in seqs && v >= 0 :: KeyText(sid, v)
  }

  function KeysOf(calls: seq<Call>, sid: string): set<string> {
    set i | 0 <= i < |calls| && calls[i].sid == sid :: calls[i].key
  }

  lemma {:induction false} KeyTextsSize(sid: string, seqs: set<int>)
    requires forall v <- seqs :: v >= 0
    ensures |KeyTexts(sid, seqs)| == |seqs|
  {
    hide KeyText;
    if |seqs| > 0 {
      var v := AnElement(seqs);
      KeyTextsSize(sid, seqs - {v});
      if KeyText(sid, v) in KeyTexts(sid, seqs - {v}) {
        var u :| u in seqs - {v} && u >= 0 && KeyText(sid, u) == KeyText(sid, v);
        KeysDistinct(sid, u, sid, v);
      }
      assert KeyTexts(sid, seqs) == KeyTexts(sid, seqs - {v}) + {KeyText(sid, v)};
    } else {
      assert KeyTexts(sid, seqs) == {};
    }
  }

  /** The validations of a submission that CPI was called for. */
  ghost function CalledFor(w: World, sid: string): set<int>
    requires sid in w.logs
  {
    set v | v in ValidationSeqs(w.logs[sid]) &&
      exists i :: 0 <= i < |w.calls| && w.calls[i].sid == sid && IsFor(w.logs, w.calls[i], v)
  }

  /** The validations of a log that some claim names. */
  function ClaimedFor(log: seq<Event>): set<int>
    requires |log| > 0
  {
    set v | v in ValidationSeqs(log) && ClaimNames(log, v)
  }

  predicate ClaimNames(log: seq<Event>, v: int)
    requires |log| > 0
  {
    v >= 0 && exists i ::
      0 <= i < |log| && log[i].payload.CpiDispatched? && log[i].payload.idempotencyKey == KeyText(log[0].submissionId, v)
  }

  /** The keys CPI sees for a submission are exactly those of the validations it is called for, each with its own. */
  lemma KeysAreOfCalled(cfg: Config, w: World, sid: string)
    requires ConfigOk(cfg) && Inv(cfg, w) && sid in w.logs
    ensures KeysOf(w.calls, sid) == KeyTexts(sid, CalledFor(w, sid))
    ensures |KeysOf(w.calls, sid)| == |CalledFor(w, sid)|
  {
    hide CallOk, KeyText, StateOf, BuildPayload, GoodStore, TaskOk;
    forall i | 0 <= i < |w.calls| && w.calls[i].sid == sid
      ensures w.calls[i].key in KeyTexts(sid, CalledFor(w, sid))
    {
      var v := CallIsFor(cfg, w.logs, w.calls[i]);
      assert w.logs[sid][v - 1].payload.Validated? && v in ValidationSeqs(w.logs[sid]);
    }
    assert KeysOf(w.calls, sid) == KeyTexts(sid, CalledFor(w, sid));
    KeyTextsSize(sid, CalledFor(w, sid));
  }

  /** CPI sees no more distinct keys for a submission than it has validations that were claimed. */
  lemma OrdersAreBounded(cfg: Config, worlds: seq<World>, steps: seq<Step>, sid: string)
    requires ConfigOk(cfg) && IsRun(cfg, worlds, steps) && sid in worlds[|steps|].logs
    ensures |worlds[|steps|].logs[sid]| > 0
    ensures |KeysOf(worlds[|steps|].calls, sid)| <= |ClaimedFor(worlds[|steps|].logs[sid])|
  {
    hide Next, Shaped, KeyText, StateOf, BuildPayload, KeysOf, GoodLog;
    RunsKeepInv(cfg, worlds, steps, |steps|);
    var w := worlds[|steps|];
    KeysAreOfCalled(cfg, w, sid);
    assert |w.logs[sid]| > 0 by { GoodStoreIsOk(cfg, w.logs); }
    forall v <- CalledFor(w, sid)
      ensures v in ClaimedFor(w.logs[sid])
    {
      var i :| 0 <= i < |w.calls| && w.calls[i].sid == sid && IsFor(w.logs, w.calls[i], v);
      CalledIsClaimed(cfg, w.logs, w.calls[i], v);
    }
    SubsetSize(CalledFor(w, sid), ClaimedFor(w.logs[sid]));
  }

  lemma CalledIsClaimed(cfg: Config, logs: Logs, c: Call, v: int)
    requires cfg.spec.Loaded() && GoodStore(cfg, logs) && CallOk(logs, c) && IsFor(logs, c, v)
    ensures |logs[c.sid]| > 0 && ClaimNames(logs[c.sid], v)
  {
    hide KeyText, StateOf, BuildPayload, GoodLog;
    assert logs[c.sid][c.claimSeq - 1].payload.idempotencyKey == c.key;
  }

  // --------------------------------------------------------- every reachable log

  /** In every run every log obeys the writers' rules, so the laws of good logs hold of it. */
  lemma ReachableLogsAreGood(cfg: Config, worlds: seq<World>, steps: seq<Step>, n: nat)
    requires ConfigOk(cfg) && IsRun(cfg, worlds, steps) && n <= |steps|
    ensures GoodStore(cfg, worlds[n].logs)
  {
    RunsKeepInv(cfg, worlds, steps, n);
  }

  lemma {:induction false} LogsOnlyGrow(cfg: Config, worlds: seq<World>, steps: seq<Step>, m: nat, n: nat)
    requires ConfigOk(cfg) && IsRun(cfg, worlds, steps) && m <= n <= |steps|
    ensures Grows(worlds[m].logs, worlds[n].logs)
  {
    hide Next, Inv, Shaped;
    if m < n {
      LogsOnlyGrow(cfg, worlds, steps, m, n - 1);
      RunsKeepInv(cfg, worlds, steps, n - 1);
      assert Next(cfg, worlds[n - 1], steps[n - 1], worlds[n - 1 + 1]);
      NextKeepsInv(cfg, worlds[n - 1], steps[n - 1], worlds[n]);
    }
  }

  /** Whoever else is at work, the first event appended to a released request is the job's. */
  lemma OnlyTheJobAppends(cfg: Config, worlds: seq<World>, steps: seq<Step>, m: nat, n: nat, sid: string)
    requires ConfigOk(cfg) && IsRun(cfg, worlds, steps) && m <= n <= |steps|
    requires sid in worlds[m].logs && WellFormed(worlds[m].logs[sid]) && Released(worlds[m].logs[sid])
    ensures sid in worlds[n].logs && worlds[m].logs[sid] <= worlds[n].logs[sid]
    ensures var early, late := worlds[m].logs[sid], worlds[n].logs[sid];
            |late| > |early| ==> late[|early|].actorRole.System?
  {
    hide Next, Shaped, StateOf, LegalNext, Released;
    LogsOnlyGrow(cfg, worlds, steps, m, n);
    ReachableLogsAreGood(cfg, worlds, steps, m);
    ReachableLogsAreGood(cfg, worlds, steps, n);
    var early, late := worlds[m].logs[sid], worlds[n].logs[sid];
    if |late| > |early| {
      GoodPrefix(cfg, late, |early|);
      assert late[..|early|] == early;
      ReleasedIsForTheJob(cfg, early, late[|early|]);
    }
  }

  /** Once a request is done, no run extends its log. */
  lemma DoneForever(cfg: Config, worlds: seq<World>, steps: seq<Step>, m: nat, n: nat, sid: string)
    requires ConfigOk(cfg) && IsRun(cfg, worlds, steps) && m <= n <= |steps|
    requires sid in worlds[m].logs && WellFormed(worlds[m].logs[sid]) && StateOf(worlds[m].logs[sid]).status.CPI_DONE?
    ensures sid in worlds[n].logs && worlds[n].logs[sid] == worlds[m].logs[sid]
  {
    hide Next, Shaped, StateOf, LegalNext;
    LogsOnlyGrow(cfg, worlds, steps, m, n);
    ReachableLogsAreGood(cfg, worlds, steps, m);
    ReachableLogsAreGood(cfg, worlds, steps, n);
    var early, late := worlds[m].logs[sid], worlds[n].logs[sid];
    if early < late {
      GoodPrefix(cfg, late, |early|);
      assert late[..|early|] == early;
      DoneIsFinal(cfg, early, late[|early|]);
    }
  }

  // -------------------------------------------------------- releasable for ever

  /** The first event of a log that can be released, with the owning account among its values. */
  predicate StartsReleasable(cfg: Config, e: Event)
    requires cfg.spec.Loaded()
  {
    && e.payload.Submitted? && Releasable(cfg, e.accountId, e.payload.values)
    && AccountValue(cfg, e.payload.values) == Some(Text(e.accountId))
  }

  predicate AllStartReleasable(cfg: Config, w: World)
    requires cfg.spec.Loaded()
  {
    && (forall sid <- w.logs :: |w.logs[sid]| > 0 && StartsReleasable(cfg, w.logs[sid][0]))
    && (forall id <- w.tasks :: w.tasks[id].Writing? && w.tasks[id].base == [] ==> StartsReleasable(cfg, w.tasks[id].event))
  }

  lemma AdmittedStarts(
      cfg: Config, p: Principal, raws: Raws, uploads: seq<Upload>, account: string, values: Values, e: Event)
    requires ConfigOk(cfg) && PlainAccounts(p) && Admission(cfg, p, raws, uploads) == Some((account, values))
    requires e.payload.Submitted? && e.payload.values == values && e.accountId == account
    ensures StartsReleasable(cfg, e)
  {
    hide Admission, Releasable;
    PlainAccountsRelease(cfg, p, raws, uploads, account, values);
    AccountIsStored(cfg, p, raws, uploads, account, values);
  }

  lemma StartsStep(cfg: Config, w: World, s: Step, w': World)
    requires ConfigOk(cfg) && Inv(cfg, w) && Shaped(w) && Next(cfg, w, s, w') && AllStartReleasable(cfg, w)
    requires s.Submit? ==> PlainAccounts(s.p)
    ensures AllStartReleasable(cfg, w')
  {
    hide Decide, Admission, IsWork, GoodStore, TaskOk, CallOk, OneCallPerClaim, IdempotencyKey, StateOf, Report, Appends;
    hide StartsReleasable, PlainAccounts, CallFor;
    match s {
      case Submit(id, p, raws, uploads, sid, metas, at) =>
        var (account, values) := Admission(cfg, p, raws, uploads).value;
        AdmittedStarts(cfg, p, raws, uploads, account, values, w'.tasks[id].event);
      case Append(id, at) => StartsAppend(cfg, w, id, at, w');
      case _ =>
    }
  }

  lemma StartsAppend(cfg: Config, w: World, id: nat, at: Time, w': World)
    requires ConfigOk(cfg) && Inv(cfg, w) && Shaped(w) && id in w.tasks && Appends(w, id, at, w') && AllStartReleasable(cfg, w)
    ensures AllStartReleasable(cfg, w')
  {
    hide GoodStore, TaskOk, CallOk, OneCallPerClaim, IdempotencyKey, StateOf, AfterAppend, AppendAnswer, StartsReleasable;
    assert TaskOk(cfg, w.logs, w.tasks[id]);
    match w.tasks[id] {
      case Writing(p, base, e) =>
        AppendKeepsGood(cfg, w.logs, p, base, e);
        RefusedLeaves(w.logs, p, e);
        forall sid <- w'.logs
          ensures |w'.logs[sid]| > 0 && StartsReleasable(cfg, w'.logs[sid][0])
        {
          if w'.logs != w.logs && sid == e.submissionId {
            assert w'.logs[sid] == base + [e] && w'.logs[sid][0] == if base == [] then e else base[0];
          }
        }
      case Claiming(base) =>
        ClaimAppend(cfg, w.logs, base, at);
        var claim := Claim(StateOf(base), IdempotencyKey(StateOf(base)).value, at);
        AcceptedExtends(w.logs, SYSTEM, claim);
    }
  }

  lemma AcceptedExtends(logs: Logs, p: Principal, e: Event)
    requires StoreOk(logs) && !e.payload.Submitted?
    ensures var logs' := AfterAppend(logs, p, e.submissionId, e.seqNo - 1, e);
            logs'.Keys == logs.Keys && forall sid <- logs :: |logs'[sid]| > 0 && logs'[sid][0] == logs[sid][0]
  {
  }

  /**
   When customers' account ids are plain, every request in every run can be released as it stands, whatever was
   overwritten: its values pass unchanged, it still names its own account, and `validate` succeeds whenever the status allows.
   */
  lemma RequestsStayReleasable(
      cfg: Config, worlds: seq<World>, steps: seq<Step>, n: nat, sid: string, p: Principal, at: Time)
    requires ConfigOk(cfg) && IsRun(cfg, worlds, steps) && n <= |steps| && sid in worlds[n].logs && p.IsInternal()
    requires forall i :: 0 <= i < |steps| && steps[i].Submit? ==> PlainAccounts(steps[i].p)
    ensures var log := worlds[n].logs[sid];
            && WellFormed(log) && Releasable(cfg, log[0].accountId, StateOf(log).values)
            && AccountValue(cfg, StateOf(log).values) == Some(Text(log[0].accountId))
            && (Reviewable(StateOf(log).status) ==> Decide(cfg, p, log, |log|, Release, at).Ok?)
  {
    hide Next, Shaped, Inv, StateOf, Decide, Releasable;
    AllStart(cfg, worlds, steps, n);
    ReachableLogsAreGood(cfg, worlds, steps, n);
    var log := worlds[n].logs[sid];
    StaysReleasable(cfg, log);
    if Reviewable(StateOf(log).status) {
      ReleaseSucceeds(cfg, p, log, at);
    }
  }

  lemma {:induction false} AllStart(cfg: Config, worlds: seq<World>, steps: seq<Step>, n: nat)
    requires ConfigOk(cfg) && IsRun(cfg, worlds, steps) && n <= |steps|
    requires forall i :: 0 <= i < |steps| && steps[i].Submit? ==> PlainAccounts(steps[i].p)
    ensures AllStartReleasable(cfg, worlds[n])
  {
    hide Next, Inv, StartsReleasable, PlainAccounts, Shaped;
    if n > 0 {
      AllStart(cfg, worlds, steps, n - 1);
      RunsKeepInv(cfg, worlds, steps, n - 1);
      assert Next(cfg, worlds[n - 1], steps[n - 1], worlds[n - 1 + 1]);
      StartsStep(cfg, worlds[n - 1], steps[n - 1], worlds[n]);
    }
  }
}
