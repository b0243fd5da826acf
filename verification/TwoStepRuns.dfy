/**
 The writers over the SQL store: each append is a check and an insert, with anything in between, and an insert whose answer
 is lost is sent again. Such runs are runs with atomic appends, in which the process whose answer is lost crashes.
 */
module TwoStepRuns {
  import opened Events
  import opened Folding
  import opened Repository
  import opened SqlStore
  import opened Services
  import opened Review
  import opened Intake
  import opened Dispatch
  import opened Runs
  import opened RunLaws
  import opened Liveness
  import Concurrency

  /** The table with the requests between check and insert, the processes, those that lost an answer, and the calls. */
  datatype Site = Site(shared: Concurrency.Shared, tasks: map<nat, Task>, lost: set<nat>, calls: seq<Call>)

  datatype Move =
    | Local(step: Step)  // anything but an append
    | Refuse(id: nat, req: Concurrency.Request, head: Head)
    | Pass(id: nat, req: Concurrency.Request, head: Head)
    | Insert(id: nat)
    | Lose(id: nat)
    | Die(id: nat)

  /** The append that a process asks for. */
  predicate Asks(t: Task, req: Concurrency.Request) {
    match t
    case Writing(p, _, e) => req == Concurrency.Request(p, e.submissionId, e.seqNo - 1, e)
    case Claiming(base) =>
      && WellFormed(base) && StateOf(base).seqNo >= 0 && IdempotencyKey(StateOf(base)).Some?
      && var claim := Claim(StateOf(base), IdempotencyKey(StateOf(base)).value, req.event.occurredAt);
         req == Concurrency.Request(SYSTEM, claim.submissionId, claim.seqNo - 1, claim)
    case _ => false
  }

  /** The step as `Runs` has it, on the logs that the table holds. */
  predicate Locally(cfg: Config, s: Site, step: Step, s': Site, logs: Logs)
    requires cfg.spec.Loaded()
  {
    && Represents(s.shared.table, logs) && Shaped(World(logs, s.tasks, s.calls))
    && Next(cfg, World(logs, s.tasks, s.calls), step, World(logs, s'.tasks, s'.calls))
  }

  ghost predicate Moves(cfg: Config, s: Site, m: Move, s': Site)
    requires cfg.spec.Loaded()
  {
    match m
    case Local(step) =>
      && !step.Append? && !step.Crash? && s'.shared == s.shared && s'.lost == s.lost
      && exists logs :: Locally(cfg, s, step, s', logs)
    case Refuse(id, req, head) =>
      && id in s.tasks && id !in s.shared.waiting && Asks(s.tasks[id], req)
      && Concurrency.Next(s.shared, Concurrency.Refuse(req, head), s'.shared)
      && s' == Site(s'.shared, s.tasks - {id}, s.lost, s.calls)
    case Pass(id, req, head) =>
      && id in s.tasks && Asks(s.tasks[id], req)
      && Concurrency.Next(s.shared, Concurrency.Pass(id, req, head), s'.shared)
      && s' == s.(shared := s'.shared)
    case Insert(id) =>
      && id in s.tasks && Concurrency.Next(s.shared, Concurrency.Insert(id), s'.shared)
      && s' == Site(s'.shared, AfterInsert(s, id), s.lost - {id}, s.calls)
    case Lose(id) =>
      && id in s.tasks && Concurrency.Next(s.shared, Concurrency.Lose(id), s'.shared)
      && s' == s.(shared := s'.shared, lost := s.lost + {id})
    case Die(id) =>
      && Concurrency.Next(s.shared, Concurrency.Crash(id), s'.shared)
      && s' == Site(s'.shared, s.tasks - {id}, s.lost - {id}, s.calls)
  }

  /** A runner goes on only if it is told that its claim went in. */
  function AfterInsert(s: Site, id: nat): map<nat, Task>
    requires id in s.tasks && id in s.shared.waiting
  {
    var t, e := s.tasks[id], s.shared.waiting[id].event;
    if t.Claiming? && Concurrency.InsertAnswer(s.shared.table, e).Ok? then s.tasks[id := Calling(t.base, e)] else s.tasks - {id}
  }

  const EMPTY_SITE := Site(Concurrency.Shared(map[], map[]), map[], {}, [])

  ghost predicate IsTwoStepRun(cfg: Config, sites: seq<Site>, moves: seq<Move>)
    requires cfg.spec.Loaded()
  {
    && |sites| == |moves| + 1 && sites[0] == EMPTY_SITE
    && forall i :: 0 <= i < |moves| ==> Moves(cfg, sites[i], moves[i], sites[i + 1])
  }

  // -------------------------------------------------------------- the projection

  /** The same logs and calls; a process that lost its answer is gone. */
  function Projected(s: Site, logs: Logs): World {
    World(logs, s.tasks - s.lost, s.calls)
  }

  predicate Taken(t: Table, req: Concurrency.Request) {
    (req.event.submissionId, req.event.seqNo) in t
  }

  /** The requests are those of their processes, and a lost answer leaves its place taken. */
  predicate Orderly(s: Site) {
    && (forall id <- s.shared.waiting :: id in s.tasks && Asks(s.tasks[id], s.shared.waiting[id]))
    && (forall id <- s.lost :: id in s.shared.waiting && Taken(s.shared.table, s.shared.waiting[id]))
  }

  /** The site is at a point that a run with atomic appends reaches. */
  ghost predicate Reached(cfg: Config, s: Site, logs: Logs)
    requires cfg.spec.Loaded()
  {
    var w := Projected(s, logs);
    Orderly(s) && Concurrency.Consistent(s.shared, logs) && Leads(cfg, START, w) && Inv(cfg, w) && Shaped(w)
  }

  lemma TableFixesLogs(t: Table, a: Logs, b: Logs)
    requires Represents(t, a) && Represents(t, b)
    ensures a == b
  {
    forall sid
      ensures sid in a <==> sid in b
    {
      assert (sid in a ==> (sid, 1) in t) && (sid in b ==> (sid, 1) in t);
    }
    forall sid <- a
      ensures a[sid] == b[sid]
    {
      assert (sid, |a[sid]|) in t && (sid, |b[sid]|) in t;
      forall i | 0 <= i < |a[sid]|
        ensures a[sid][i] == b[sid][i]
      {
        assert (sid, i + 1) in t;
      }
    }
  }

  /** One more step of the run with atomic appends. */
  lemma ReachOn(cfg: Config, w: World, step: Step, w': World)
    requires ConfigOk(cfg) && Leads(cfg, START, w) && Inv(cfg, w) && Shaped(w) && Next(cfg, w, step, w')
    ensures Leads(cfg, START, w') && Inv(cfg, w') && Shaped(w') && Grows(w.logs, w'.logs)
  {
    hide Next, Inv, Shaped, Leads;
    StartIsOk(cfg);
    LeadsOn(cfg, START, w, step, w');
    NextKeepsInv(cfg, w, step, w');
  }

  lemma LostAreAppending(s: Site)
    requires Orderly(s)
    ensures forall id <- s.shared.waiting :: id in s.tasks && (s.tasks[id].Writing? || s.tasks[id].Claiming?)
    ensures s.lost <= s.shared.waiting.Keys
  {
    hide StateOf, IdempotencyKey;
    forall id <- s.shared.waiting
      ensures id in s.tasks && (s.tasks[id].Writing? || s.tasks[id].Claiming?)
    {
      assert Asks(s.tasks[id], s.shared.waiting[id]);
    }
  }

  /** Whatever is not an append does the same among the processes that lost no answer. */
  lemma LocalProjects(cfg: Config, s: Site, step: Step, s': Site, logs: Logs)
    requires cfg.spec.Loaded() && Orderly(s) && Locally(cfg, s, step, s', logs) && !step.Append? && !step.Crash?
    requires Shaped(Projected(s, logs)) && s'.lost == s.lost
    ensures Next(cfg, Projected(s, logs), step, Projected(s', logs))
  {
    hide Represents, Decide, Admission, Picks, IdempotencyKey, StateOf, Report, CallFor, Orderly, WellFormed, StoreOk;
    LostAreAppending(s);
    assert step.id !in s.lost;
  }

  lemma LocalIsOrderly(cfg: Config, s: Site, step: Step, s': Site, logs: Logs)
    requires cfg.spec.Loaded() && Orderly(s) && Locally(cfg, s, step, s', logs) && !step.Append? && !step.Crash?
    requires s'.shared == s.shared && s'.lost == s.lost
    ensures Orderly(s')
  {
    hide Represents, Decide, Admission, Picks, IdempotencyKey, StateOf, Report, CallFor, WellFormed, StoreOk, Asks;
    LostAreAppending(s);
    assert step.id !in s.shared.waiting;
  }

  lemma LocalStep(cfg: Config, s: Site, step: Step, s': Site, logs: Logs)
    requires ConfigOk(cfg) && Reached(cfg, s, logs) && Moves(cfg, s, Local(step), s')
    ensures Reached(cfg, s', logs)
  {
    hide Locally, Represents, Orderly, Leads, Inv, Shaped;
    var read :| Locally(cfg, s, step, s', read);
    assert read == logs by { SameLogs(cfg, s, step, s', read, logs); }
    LocalProjects(cfg, s, step, s', logs);
    LocalIsOrderly(cfg, s, step, s', logs);
    ReachOn(cfg, Projected(s, logs), step, Projected(s', logs));
  }

  lemma SameLogs(cfg: Config, s: Site, step: Step, s': Site, read: Logs, logs: Logs)
    requires cfg.spec.Loaded() && Locally(cfg, s, step, s', read) && Represents(s.shared.table, logs)
    ensures read == logs
  {
    hide Represents, Next;
    TableFixesLogs(s.shared.table, read, logs);
  }

  /** The world after an append that a process asks for. */
  function Appended(w: World, id: nat, req: Concurrency.Request): World
    requires StoreOk(w.logs) && id in w.tasks
  {
    var t, answer := w.tasks[id], AppendAnswer(w.logs, req.principal, req.sid, req.expected, req.event);
    World(
      AfterAppend(w.logs, req.principal, req.sid, req.expected, req.event),
      if t.Claiming? && answer.Ok? then w.tasks[id := Calling(t.base, req.event)] else w.tasks - {id}, w.calls)
  }

  /** It is the append of `Runs`, and leads to one more point that a run reaches. */
  lemma AppendReaches(cfg: Config, w: World, id: nat, req: Concurrency.Request)
    requires ConfigOk(cfg) && Leads(cfg, START, w) && Inv(cfg, w) && Shaped(w) && id in w.tasks && Asks(w.tasks[id], req)
    ensures var w' := Appended(w, id, req); Leads(cfg, START, w') && Inv(cfg, w') && Shaped(w') && Grows(w.logs, w'.logs)
  {
    hide Leads, Inv, AfterAppend, AppendAnswer, IdempotencyKey, StateOf, WellFormed;
    var w' := Appended(w, id, req);
    assert Next(cfg, w, Append(id, req.event.occurredAt), w');
    ReachOn(cfg, w, Append(id, req.event.occurredAt), w');
  }

  lemma DroppedIsOrderly(s: Site, id: nat, s': Site)
    requires Orderly(s) && s'.shared.waiting == s.shared.waiting - {id} && s'.lost == s.lost - {id}
    requires s.shared.table.Keys <= s'.shared.table.Keys
    requires forall i <- s.tasks | i != id :: i in s'.tasks && s'.tasks[i] == s.tasks[i]
    ensures Orderly(s')
  {
    hide Asks;
  }

  /** A refused check is a refused append. */
  lemma RefuseStep(cfg: Config, s: Site, id: nat, req: Concurrency.Request, head: Head, s': Site, logs: Logs)
    requires ConfigOk(cfg) && Reached(cfg, s, logs) && Moves(cfg, s, Refuse(id, req, head), s')
    ensures Reached(cfg, s', logs)
  {
    hide SameRows, StoreOk, Leads, Inv, Shaped, Asks, Orderly, AppendAnswer, AfterAppend, IsHead;
    LostAreAppending(s);
    Concurrency.CheckedIsPending(s.shared, logs, req, head);
    RefusedBoth(logs, req);
    AppendReaches(cfg, Projected(s, logs), id, req);
    assert Appended(Projected(s, logs), id, req) == Projected(s', logs);
    DroppedIsOrderly(s, id, s');
  }

  lemma RefusedBoth(logs: Logs, req: Concurrency.Request)
    requires StoreOk(logs) && SqlAnswer(logs, req.principal, req.sid, req.expected, req.event).Err?
    ensures AppendAnswer(logs, req.principal, req.sid, req.expected, req.event).Err?
    ensures AfterAppend(logs, req.principal, req.sid, req.expected, req.event) == logs
  {
    StoresAgree(logs, req.principal, req.sid, req.expected, req.event);
  }

  lemma PassStep(cfg: Config, s: Site, id: nat, req: Concurrency.Request, head: Head, s': Site, logs: Logs)
    requires ConfigOk(cfg) && Reached(cfg, s, logs) && Moves(cfg, s, Pass(id, req, head), s')
    ensures Reached(cfg, s', logs)
  {
    hide Represents, Leads, Inv, Shaped, Asks, IsHead, Concurrency.Check, Concurrency.Pending;
    Concurrency.CheckedIsPending(s.shared, logs, req, head);
  }

  /** An insert that is sent for the first time is the append. */
  lemma FirstInsert(cfg: Config, s: Site, id: nat, s': Site, logs: Logs) returns (logs': Logs)
    requires ConfigOk(cfg) && Reached(cfg, s, logs) && Moves(cfg, s, Insert(id), s') && id !in s.lost
    ensures Reached(cfg, s', logs')
  {
    hide SameRows, StoreOk, Leads, Inv, Shaped, Asks, AppendAnswer, AfterAppend, Concurrency.Pending;
    var req, w := s.shared.waiting[id], Projected(s, logs);
    logs' := AfterAppend(logs, req.principal, req.sid, req.expected, req.event);
    Concurrency.InsertKeepsConsistent(s.shared, id, s'.shared, logs);
    StoresAgree(logs, req.principal, req.sid, req.expected, req.event);
    AppendReaches(cfg, w, id, req);
    assert Appended(w, id, req) == Projected(s', logs');
    DroppedIsOrderly(s, id, s');
  }

  /** One that is sent again finds its place taken. */
  lemma InsertAgain(cfg: Config, s: Site, id: nat, s': Site, logs: Logs)
    requires ConfigOk(cfg) && Reached(cfg, s, logs) && Moves(cfg, s, Insert(id), s') && id in s.lost
    ensures Reached(cfg, s', logs)
  {
    hide SameRows, StoreOk, Leads, Inv, Shaped, Asks, Concurrency.Pending;
    assert Concurrency.InsertAnswer(s.shared.table, s.shared.waiting[id].event).Err?;
    assert Projected(s', logs) == Projected(s, logs);
    DroppedIsOrderly(s, id, s');
  }

  /** An insert whose answer is lost is the append, after which the process is gone. */
  lemma LoseStep(cfg: Config, s: Site, id: nat, s': Site, logs: Logs) returns (logs': Logs)
    requires ConfigOk(cfg) && Reached(cfg, s, logs) && Moves(cfg, s, Lose(id), s')
    ensures Reached(cfg, s', logs')
  {
    hide SameRows, StoreOk, Leads, Inv, Shaped, Asks, AppendAnswer, AfterAppend, Concurrency.Pending, SqlAnswer;
    var req, w := s.shared.waiting[id], Projected(s, logs);
    assert Orderly(s') by { SentIsOrderly(s, id, s'); }
    if id in s.lost {
      logs' := logs;
      assert s' == s;
    } else {
      logs' := AfterAppend(logs, req.principal, req.sid, req.expected, req.event);
      Concurrency.InsertKeepsConsistent(s.shared, id, s'.shared, logs);
      AppendReaches(cfg, w, id, req);
      var appended := Appended(w, id, req);
      assert appended.tasks - {id} == Projected(s', logs').tasks;
      assert Next(cfg, appended, Crash(id), Projected(s', logs'));
      ReachOn(cfg, appended, Crash(id), Projected(s', logs'));
    }
  }

  lemma SentIsOrderly(s: Site, id: nat, s': Site)
    requires Orderly(s) && id in s.shared.waiting && s'.shared.waiting == s.shared.waiting && s'.tasks == s.tasks
    requires s'.shared.table == Inserted(s.shared.table, s.shared.waiting[id].event) && s'.lost == s.lost + {id}
    ensures Orderly(s')
  {
    hide Asks;
  }

  lemma DieStep(cfg: Config, s: Site, id: nat, s': Site, logs: Logs)
    requires ConfigOk(cfg) && Reached(cfg, s, logs) && Moves(cfg, s, Die(id), s')
    ensures Reached(cfg, s', logs)
  {
    hide Represents, Leads, Inv, Shaped, Asks, Concurrency.Pending, Orderly;
    var w := Projected(s, logs);
    assert w.tasks - {id} == Projected(s', logs).tasks;
    assert Next(cfg, w, Crash(id), Projected(s', logs));
    ReachOn(cfg, w, Crash(id), Projected(s', logs));
    DroppedIsOrderly(s, id, s');
  }

  lemma MoveReaches(cfg: Config, s: Site, m: Move, s': Site, logs: Logs) returns (logs': Logs)
    requires ConfigOk(cfg) && Reached(cfg, s, logs) && Moves(cfg, s, m, s')
    ensures Reached(cfg, s', logs')
  {
    hide Reached, Moves;
    logs' := logs;
    match m {
      case Local(step) => LocalStep(cfg, s, step, s', logs);
      case Refuse(id, req, head) => RefuseStep(cfg, s, id, req, head, s', logs);
      case Pass(id, req, head) => PassStep(cfg, s, id, req, head, s', logs);
      case Insert(id) =>
        if id in s.lost {
          InsertAgain(cfg, s, id, s', logs);
        } else {
          logs' := FirstInsert(cfg, s, id, s', logs);
        }
      case Lose(id) => logs' := LoseStep(cfg, s, id, s', logs);
      case Die(id) => DieStep(cfg, s, id, s', logs);
    }
  }

  lemma {:induction false} RunReaches(cfg: Config, sites: seq<Site>, moves: seq<Move>, n: nat) returns (logs: Logs)
    requires ConfigOk(cfg) && IsTwoStepRun(cfg, sites, moves) && n <= |moves|
    ensures Reached(cfg, sites[n], logs)
  {
    hide Reached, Moves;
    if n == 0 {
      logs := map[];
      EmptyReached(cfg);
    } else {
      var before := RunReaches(cfg, sites, moves, n - 1);
      assert Moves(cfg, sites[n - 1], moves[n - 1], sites[n - 1 + 1]);
      logs := MoveReaches(cfg, sites[n - 1], moves[n - 1], sites[n], before);
    }
  }

  lemma EmptyReached(cfg: Config)
    requires cfg.spec.Loaded()
    ensures Reached(cfg, EMPTY_SITE, map[])
  {
    StartIsOk(cfg);
    StaysPut(cfg, START);
    assert Projected(EMPTY_SITE, map[]) == START;
  }

  /** The run with atomic appends ends with the logs and the calls of the site, and its processes that lost no answer. */
  ghost predicate EndsLike(cfg: Config, worlds: seq<World>, steps: seq<Step>, s: Site)
    requires cfg.spec.Loaded()
  {
    && IsRun(cfg, worlds, steps) && Represents(s.shared.table, worlds[|steps|].logs)
    && worlds[|steps|].calls == s.calls && worlds[|steps|].tasks == s.tasks - s.lost
  }

  /** Every run over checks and inserts ends like a run with atomic appends. */
  lemma TwoStepRunsAreRuns(cfg: Config, sites: seq<Site>, moves: seq<Move>)
    requires ConfigOk(cfg) && IsTwoStepRun(cfg, sites, moves)
    ensures exists worlds, steps :: EndsLike(cfg, worlds, steps, sites[|moves|])
  {
    hide Moves, Next, Shaped, Inv, Represents, Orderly, Concurrency.Pending;
    var logs := RunReaches(cfg, sites, moves, |moves|);
    var w := Projected(sites[|moves|], logs);
    var worlds, steps :| PathBetween(cfg, worlds, steps, START, w);
    assert EndsLike(cfg, worlds, steps, sites[|moves|]);
  }

  /** So CPI is called at most `maxAttempts` times under one key when appends are two statements and lose answers. */
  lemma CallsPerKeyStayBounded(cfg: Config, sites: seq<Site>, moves: seq<Move>, key: string)
    requires ConfigOk(cfg) && IsTwoStepRun(cfg, sites, moves)
    ensures CallsUnder(sites[|moves|].calls, key) <= cfg.maxAttempts
  {
    hide Moves, Next, Represents;
    TwoStepRunsAreRuns(cfg, sites, moves);
    var worlds, steps :| EndsLike(cfg, worlds, steps, sites[|moves|]);
    CallsPerKeyAreBounded(cfg, worlds, steps, key);
  }
}
