/**
 Many processes append through the SQL repository at once. Each append is two separate statements, a check that reads
 the head of the log and an insert-if-absent, and anything may happen between them.
 */
module Concurrency {
  import opened Prelude
  import opened Events
  import opened Folding
  import opened Repository
  import opened SqlStore

  datatype Request = Request(principal: Principal, sid: string, expected: int, event: Event)

  /** The shared table, and the requests whose check has passed and whose insert is still to come. */
  datatype Shared = Shared(table: Table, waiting: map<nat, Request>)

  datatype Move =
    | Refuse(req: Request, head: Head)              // the check fails and the caller gets its error
    | Pass(process: nat, req: Request, head: Head)  // the check succeeds
    | Insert(process: nat)                          // the insert runs and the caller gets the answer
    | Lose(process: nat)                            // the insert runs, its answer is lost, and it will be sent again
    | Crash(process: nat)                           // the process dies between its two statements

  /** Everything `append_event` looks at before its insert. */
  function Check(req: Request, head: Head): Option<Error> {
    if req.event.submissionId != req.sid || req.event.seqNo != req.expected + 1 then Some(BadEvent)
    else if req.expected == 0 then CheckCreate(req.principal, req.event)
    else CheckAppend(head, req.principal, req.expected, req.event)
  }

  predicate Next(s: Shared, m: Move, s': Shared) {
    match m
    case Refuse(req, head) => IsHead(s.table, req.sid, head) && Check(req, head).Some? && s' == s
    case Pass(i, req, head) =>
      && IsHead(s.table, req.sid, head) && Check(req, head).None? && i !in s.waiting
      && s' == s.(waiting := s.waiting[i := req])
    case Insert(i) =>
      i in s.waiting && s' == Shared(Inserted(s.table, s.waiting[i].event), s.waiting - {i})
    case Lose(i) => i in s.waiting && s' == s.(table := Inserted(s.table, s.waiting[i].event))
    case Crash(i) => s' == s.(waiting := s.waiting - {i})
  }

  /** A request together with its answer, which its caller got or which was lost on the way. */
  datatype Entry = Entry(req: Request, answer: Result<int, Error>, delivered: bool)

  function InsertAnswer(t: Table, e: Event): Result<int, Error> {
    if InsertCount(t, e) == 1 then Ok(e.seqNo) else Err(Conflict)
  }

  /** The answer given by a move, if it gives one. */
  function Answered(s: Shared, m: Move): seq<Entry> {
    match m
    case Refuse(req, head) =>
      (match Check(req, head)
       case Some(error) => [Entry(req, Err(error), true)]
       case None => [])
    case Insert(i) =>
      if i !in s.waiting then [] else [Entry(s.waiting[i], InsertAnswer(s.table, s.waiting[i].event), true)]
    case Lose(i) =>
      if i !in s.waiting then [] else [Entry(s.waiting[i], InsertAnswer(s.table, s.waiting[i].event), false)]
    case _ => []
  }

  predicate IsRun(states: seq<Shared>, moves: seq<Move>) {
    && |states| == |moves| + 1
    && states[0] == Shared(map[], map[])
    && forall i :: 0 <= i < |moves| ==> Next(states[i], moves[i], states[i + 1])
  }

  /** The answers given in a run, delivered or lost, in the order in which they were given. */
  function History(states: seq<Shared>, moves: seq<Move>): seq<Entry>
    requires |states| == |moves| + 1
  {
    if |moves| == 0 then []
    else
      var n := |moves| - 1;
      History(states[..n + 1], moves[..n]) + Answered(states[n], moves[n])
  }

  /** The in-memory store after it has been asked the same requests one at a time, in that order. */
  function Sequential(history: seq<Entry>): (logs: Logs)
    ensures StoreOk(logs)
  {
    if |history| == 0 then map[]
    else
      var req, before := history[|history| - 1].req, Sequential(history[..|history| - 1]);
      AppendKeepsStore(before, req.principal, req.sid, req.expected, req.event);
      AfterAppend(before, req.principal, req.sid, req.expected, req.event)
  }

  /** Every answer is the one a store used by a single process would have given at that point. */
  predicate AnswersSequential(history: seq<Entry>) {
    forall k :: 0 <= k < |history| ==>
      var req := history[k].req;
      history[k].answer == SqlAnswer(Sequential(history[..k]), req.principal, req.sid, req.expected, req.event)
  }

  /** What stays true of a request between its check and its insert, however far its log grows meanwhile. */
  predicate Pending(logs: Logs, req: Request)
    requires StoreOk(logs)
  {
    && req.event.submissionId == req.sid && req.event.seqNo == req.expected + 1
    && if req.expected == 0 then CheckCreate(req.principal, req.event).None?
       else
         && req.sid in logs && req.expected <= |logs[req.sid]| && !req.event.payload.Submitted?
         && req.event.accountId == logs[req.sid][0].accountId && req.principal.Sees(req.event.accountId)
  }

  predicate Consistent(s: Shared, logs: Logs) {
    && Represents(s.table, logs)
    && forall i <- s.waiting :: Pending(logs, s.waiting[i])
  }

  lemma PendingStable(logs: Logs, logs': Logs, req: Request)
    requires StoreOk(logs) && StoreOk(logs') && Grows(logs, logs') && Pending(logs, req)
    ensures Pending(logs', req)
  {
  }

  lemma CheckedIsPending(s: Shared, logs: Logs, req: Request, head: Head)
    requires Consistent(s, logs) && IsHead(s.table, req.sid, head)
    ensures match Check(req, head)
            case None => Pending(logs, req)
            case Some(error) => SqlAnswer(logs, req.principal, req.sid, req.expected, req.event) == Err(error)
  {
    HeadOfLog(s.table, logs, req.sid, head);
  }

  /** The insert of a checked request takes effect exactly when the whole append, made at that instant, would. */
  lemma InsertIsAtomicAppend(s: Shared, logs: Logs, req: Request)
    requires Represents(s.table, logs) && Pending(logs, req)
    ensures var answer := SqlAnswer(logs, req.principal, req.sid, req.expected, req.event);
            && answer == InsertAnswer(s.table, req.event)
            && Represents(Inserted(s.table, req.event), AfterAppend(logs, req.principal, req.sid, req.expected, req.event))
  {
    var sid, e := req.sid, req.event;
    StoresAgree(logs, req.principal, sid, req.expected, e);
    AcceptedIff(logs, req.principal, sid, req.expected, e);
    if sid in logs && req.expected < |logs[sid]| {
      assert (sid, req.expected + 1) in s.table;
    } else {
      InsertExtends(s.table, logs, e);
    }
  }

  /** An insert, whether or not its answer arrives, has the effect of the whole append, and leaves the others pending. */
  lemma InsertKeepsConsistent(s: Shared, i: nat, s': Shared, logs: Logs)
    requires i in s.waiting && s'.table == Inserted(s.table, s.waiting[i].event) && s'.waiting.Keys <= s.waiting.Keys
    requires forall j <- s'.waiting :: s'.waiting[j] == s.waiting[j]
    requires Consistent(s, logs)
    ensures var req := s.waiting[i];
            && Consistent(s', AfterAppend(logs, req.principal, req.sid, req.expected, req.event))
            && InsertAnswer(s.table, req.event) == SqlAnswer(logs, req.principal, req.sid, req.expected, req.event)
  {
    hide StoreOk, SameRows, Pending, SqlAnswer, AfterAppend, InsertAnswer;
    var req := s.waiting[i];
    InsertIsAtomicAppend(s, logs, req);
    AppendGrowsLogs(logs, req);
    forall j <- s'.waiting
      ensures Pending(AfterAppend(logs, req.principal, req.sid, req.expected, req.event), s'.waiting[j])
    {
      PendingStable(logs, AfterAppend(logs, req.principal, req.sid, req.expected, req.event), s.waiting[j]);
    }
  }

  lemma EffectKeepsConsistent(s: Shared, i: nat, s': Shared, history: seq<Entry>, delivered: bool)
    requires i in s.waiting && s'.table == Inserted(s.table, s.waiting[i].event) && s'.waiting.Keys <= s.waiting.Keys
    requires forall j <- s'.waiting :: s'.waiting[j] == s.waiting[j]
    requires Consistent(s, Sequential(history)) && AnswersSequential(history)
    ensures var history' := history + [Entry(s.waiting[i], InsertAnswer(s.table, s.waiting[i].event), delivered)];
            Consistent(s', Sequential(history')) && AnswersSequential(history')
  {
    hide Consistent, SqlAnswer, AfterAppend, InsertAnswer, StoreOk;
    InsertKeepsConsistent(s, i, s', Sequential(history));
    HistoryExtends(history, Entry(s.waiting[i], InsertAnswer(s.table, s.waiting[i].event), delivered));
  }

  lemma AppendGrowsLogs(logs: Logs, req: Request)
    requires StoreOk(logs)
    ensures Grows(logs, AfterAppend(logs, req.principal, req.sid, req.expected, req.event))
  {
    hide AppendAnswer;
    AppendGrows(logs, req.event);
  }

  lemma MoveKeepsConsistent(s: Shared, m: Move, s': Shared, history: seq<Entry>)
    requires Next(s, m, s') && Consistent(s, Sequential(history)) && AnswersSequential(history)
    ensures var history' := history + Answered(s, m);
            Consistent(s', Sequential(history')) && AnswersSequential(history')
  {
    var logs, history' := Sequential(history), history + Answered(s, m);
    match m {
      case Refuse(req, head) =>
        CheckedIsPending(s, logs, req, head);
        StoresAgree(logs, req.principal, req.sid, req.expected, req.event);
        HistoryExtends(history, Answered(s, m)[0]);
      case Pass(i, req, head) =>
        CheckedIsPending(s, logs, req, head);
        assert history' == history;
      case Insert(i) => EffectKeepsConsistent(s, i, s', history, true);
      case Lose(i) => EffectKeepsConsistent(s, i, s', history, false);
      case Crash(i) =>
        assert history' == history;
    }
  }

  lemma HistoryExtends(history: seq<Entry>, entry: Entry)
    requires AnswersSequential(history)
    requires var req := entry.req;
             entry.answer == SqlAnswer(Sequential(history), req.principal, req.sid, req.expected, req.event)
    ensures var req := entry.req;
            Sequential(history + [entry]) ==
            AfterAppend(Sequential(history), req.principal, req.sid, req.expected, req.event)
    ensures AnswersSequential(history + [entry])
  {
    var ext := history + [entry];
    assert ext[..|history|] == history;
    forall k | 0 <= k < |history|
      ensures ext[..k] == history[..k] && ext[k] == history[k]
    {
    }
  }

  /**
   Check-then-insert linearises: after any interleaving of any number of appends, of which some lose their answer and send
   their insert again, the table holds what the in-memory store would hold after the answered requests one by one, and
   every answer, delivered or lost, is that store's answer.
   */
  lemma {:induction false} Linearises(states: seq<Shared>, moves: seq<Move>)
    requires IsRun(states, moves)
    ensures Consistent(states[|moves|], Sequential(History(states, moves)))
    ensures AnswersSequential(History(states, moves))
  {
    if |moves| > 0 {
      var n := |moves| - 1;
      Linearises(states[..n + 1], moves[..n]);
      MoveKeepsConsistent(states[n], moves[n], states[n + 1], History(states[..n + 1], moves[..n]));
    }
  }

  /** `log` is the content of the rows of `sid`, read in sequence order. */
  predicate RowsAre(t: Table, sid: string, log: seq<Event>) {
    && (forall k <- t :: k.0 == sid ==> 1 <= k.1 <= |log|)
    && (forall i :: 0 <= i < |log| ==> (sid, i + 1) in t && t[(sid, i + 1)] == log[i])
  }

  /** In every reachable table a submission's rows are numbered 1..n, of one account, SUBMITTED exactly at 1. */
  lemma RowsStayWellFormed(states: seq<Shared>, moves: seq<Move>, sid: string)
    requires IsRun(states, moves)
    ensures exists log :: RowsAre(states[|moves|].table, sid, log) && (log == [] || WellFormed(log))
  {
    Linearises(states, moves);
    var t, logs := states[|moves|].table, Sequential(History(states, moves));
    var log := if sid in logs then logs[sid] else [];
    assert RowsAre(t, sid, log);
  }

  /** Whoever was told that an append succeeded finds its event in the table, for good. */
  lemma {:induction false} OkIsTrue(states: seq<Shared>, moves: seq<Move>, k: nat)
    requires IsRun(states, moves) && k < |History(states, moves)| && History(states, moves)[k].answer.Ok?
    ensures var e := History(states, moves)[k].req.event;
            (e.submissionId, e.seqNo) in states[|moves|].table && states[|moves|].table[(e.submissionId, e.seqNo)] == e
  {
    Linearises(states, moves);
    var history := History(states, moves);
    var req := history[k].req;
    var before := Sequential(history[..k]);
    assert history[k].answer == SqlAnswer(before, req.principal, req.sid, req.expected, req.event);
    StoresAgree(before, req.principal, req.sid, req.expected, req.event);
    AcceptedAt(before, req);
    assert history[..k + 1][..k] == history[..k];
    SequentialGrows(history, k + 1);
    var logs := Sequential(history);
    assert Sequential(history[..k + 1])[req.event.submissionId] <= logs[req.event.submissionId];
  }

  lemma AcceptedAt(logs: Logs, req: Request)
    requires StoreOk(logs) && AppendAnswer(logs, req.principal, req.sid, req.expected, req.event).Ok?
    ensures var e, logs' := req.event, AfterAppend(logs, req.principal, req.sid, req.expected, req.event);
            e.submissionId in logs' && |logs'[e.submissionId]| == e.seqNo && logs'[e.submissionId][e.seqNo - 1] == e
  {
  }

  lemma {:induction false} SequentialGrows(history: seq<Entry>, n: nat)
    requires n <= |history|
    ensures Grows(Sequential(history[..n]), Sequential(history))
  {
    hide StoreOk, AfterAppend;
    if n == |history| {
      assert history[..n] == history;
    } else {
      var init, req := history[..|history| - 1], history[|history| - 1].req;
      SequentialGrows(init, n);
      assert init[..n] == history[..n];
      AppendGrowsLogs(Sequential(init), req);
    }
  }
}
