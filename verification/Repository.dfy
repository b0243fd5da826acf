/** The submission repository contract: what appends and reads answer, on the logs themselves. */
module Repository {
  import opened Prelude
  import opened Events
  import opened Folding

  datatype Error = NotFound | Conflict | BadEvent | BadLimit

  type Logs = map<string, seq<Event>>

  /** Every log is well formed and filed under its own submission id. */
  predicate StoreOk(logs: Logs) {
    forall sid <- logs :: WellFormed(logs[sid]) && logs[sid][0].submissionId == sid
  }

  /** What `append_event` answers. `expected` is the last sequence number the caller observed. */
  function AppendAnswer(logs: Logs, p: Principal, sid: string, expected: int, e: Event): Result<int, Error>
    requires StoreOk(logs)
  {
    if e.submissionId != sid then Err(BadEvent)
    else if e.seqNo != expected + 1 then Err(BadEvent)
    else if sid !in logs then
      if expected != 0 || !e.payload.Submitted? then Err(NotFound)
      else if !p.Sees(e.accountId) then Err(NotFound)
      else Ok(e.seqNo)
    else
      var first := logs[sid][0];
      if !p.Sees(first.accountId) then Err(NotFound)
      else if e.payload.Submitted? then Err(BadEvent)
      else if e.accountId != first.accountId then Err(BadEvent)
      else if |logs[sid]| != expected then Err(Conflict)
      else Ok(e.seqNo)
  }

  /** The logs with `e` at the end of the log it belongs to. */
  function Extended(logs: Logs, e: Event): Logs {
    logs[e.submissionId := (if e.submissionId in logs then logs[e.submissionId] else []) + [e]]
  }

  /** The logs after `append_event`: extended when it is accepted, else unchanged. */
  function AfterAppend(logs: Logs, p: Principal, sid: string, expected: int, e: Event): Logs
    requires StoreOk(logs)
  {
    if AppendAnswer(logs, p, sid, expected, e).Ok? then Extended(logs, e) else logs
  }

  /** Accepted appends, and only those, are events that keep the store well formed and that the caller may make. */
  lemma AcceptedIff(logs: Logs, p: Principal, sid: string, expected: int, e: Event)
    requires StoreOk(logs)
    ensures AppendAnswer(logs, p, sid, expected, e).Ok? <==>
            && e.submissionId == sid && e.seqNo == expected + 1
            && p.Sees(if sid in logs then logs[sid][0].accountId else e.accountId)
            && StoreOk(Extended(logs, e))
  {
    var ext := Extended(logs, e);
    if e.submissionId == sid {
      if sid in logs {
        WellFormedExtend(logs[sid], e);
        assert ext[sid] == logs[sid] + [e];
      } else {
        assert ext[sid] == [e];
      }
      forall s <- ext | s != sid
        ensures WellFormed(ext[s]) && ext[s][0].submissionId == s
      {
        assert s in logs && ext[s] == logs[s];
      }
    }
  }

  /** The event is numbered as announced and carries the id it is appended under. */
  predicate Addressed(sid: string, expected: int, e: Event) {
    e.submissionId == sid && e.seqNo == expected + 1
  }

  /** Which refusal stands for what: nothing to be seen there, a log that has moved on, or an event that cannot follow. */
  lemma RefusalTells(logs: Logs, p: Principal, sid: string, expected: int, e: Event)
    requires StoreOk(logs)
    ensures var answer := AppendAnswer(logs, p, sid, expected, e);
            && (answer == Err(NotFound) <==>
                  Addressed(sid, expected, e) &&
                  if sid in logs then !p.Sees(logs[sid][0].accountId)
                  else expected != 0 || !e.payload.Submitted? || !p.Sees(e.accountId))
            && (answer == Err(Conflict) <==>
                  && Addressed(sid, expected, e) && sid in logs && p.Sees(logs[sid][0].accountId)
                  && e.accountId == logs[sid][0].accountId && !e.payload.Submitted? && !Continues(logs[sid], e))
            && answer != Err(BadLimit) && (answer.Ok? ==> answer == Ok(e.seqNo))
  {
  }

  /** An append to a log the caller may not see is answered as if there were no such log; only creates tell the difference. */
  lemma HiddenIsAbsent(logs: Logs, p: Principal, sid: string, expected: int, e: Event)
    requires StoreOk(logs) && sid in logs && !p.Sees(logs[sid][0].accountId) && !e.payload.Submitted?
    ensures StoreOk(logs - {sid})
    ensures AppendAnswer(logs, p, sid, expected, e) == AppendAnswer(logs - {sid}, p, sid, expected, e)
    ensures EventsAnswer(logs, p, sid) == EventsAnswer(logs - {sid}, p, sid)
  {
  }

  /** Whoever sees a log can append the event that comes next. */
  lemma NextAppends(logs: Logs, p: Principal, sid: string, e: Event)
    requires StoreOk(logs) && sid in logs && Continues(logs[sid], e) && p.Sees(e.accountId)
    ensures AppendAnswer(logs, p, sid, e.seqNo - 1, e).Ok?
    ensures AfterAppend(logs, p, sid, e.seqNo - 1, e) == logs[sid := logs[sid] + [e]]
  {
  }

  lemma AppendKeepsStore(logs: Logs, p: Principal, sid: string, expected: int, e: Event)
    requires StoreOk(logs)
    ensures StoreOk(AfterAppend(logs, p, sid, expected, e))
  {
    AcceptedIff(logs, p, sid, expected, e);
  }

  /** Logs only grow at the end. */
  predicate Grows(logs: Logs, logs': Logs) {
    forall sid <- logs :: sid in logs' && logs[sid] <= logs'[sid]
  }

  lemma AppendGrows(logs: Logs, e: Event)
    ensures Grows(logs, Extended(logs, e))
  {
  }

  /** What `get_events` answers. */
  function EventsAnswer(logs: Logs, p: Principal, sid: string): Result<seq<Event>, Error>
    requires StoreOk(logs)
  {
    if sid !in logs then Err(NotFound)
    else if !p.Sees(logs[sid][0].accountId) then Err(NotFound)
    else Ok(logs[sid])
  }
}
