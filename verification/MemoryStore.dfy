/** The in-memory repository: one atomic step per append. */
module MemoryStore {
  import opened Prelude
  import opened Events
  import opened Folding
  import opened Repository
  import opened Listing

  class InMemorySubmissionRepository {
    var logs: Logs

    ghost predicate Valid()
      reads this
    {
      StoreOk(logs)
    }

    constructor ()
      ensures Valid() && logs == map[]
    {
      logs := map[];
    }

    method AppendEvent(p: Principal, sid: string, expected: int, e: Event) returns (r: Result<int, Error>)
      requires Valid()
      modifies this
      ensures Valid()
      ensures r == AppendAnswer(old(logs), p, sid, expected, e)
      ensures logs == AfterAppend(old(logs), p, sid, expected, e)
    {
      AcceptedIff(logs, p, sid, expected, e);
      if e.submissionId != sid {
        return Err(BadEvent);
      }
      if e.seqNo != expected + 1 {
        return Err(BadEvent);
      }
      if sid !in logs {
        r := Create(p, sid, expected, e);
        return;
      }
      var log := logs[sid];
      if !p.Sees(log[0].accountId) {
        return Err(NotFound);
      }
      if e.payload.Submitted? {
        return Err(BadEvent);
      }
      if e.accountId != log[0].accountId {
        return Err(BadEvent);
      }
      if |log| != expected {
        return Err(Conflict);
      }
      logs := logs[sid := log + [e]];
      return Ok(e.seqNo);
    }

    method Create(p: Principal, sid: string, expected: int, e: Event) returns (r: Result<int, Error>)
      requires Valid() && sid !in logs && e.submissionId == sid && e.seqNo == expected + 1
      modifies this
      ensures Valid()
      ensures r == AppendAnswer(old(logs), p, sid, expected, e)
      ensures logs == AfterAppend(old(logs), p, sid, expected, e)
    {
      AcceptedIff(logs, p, sid, expected, e);
      if expected != 0 || !e.payload.Submitted? {
        return Err(NotFound);
      }
      if p.IsScoped() && e.accountId !in p.accountIds {
        return Err(NotFound);
      }
      logs := logs[sid := [e]];
      assert [] + [e] == [e];
      return Ok(e.seqNo);
    }

    method GetEvents(p: Principal, sid: string) returns (r: Result<seq<Event>, Error>)
      requires Valid()
      ensures r == EventsAnswer(logs, p, sid)
    {
      if sid !in logs {
        return Err(NotFound);
      }
      var log := logs[sid];
      if !p.Sees(log[0].accountId) {
        return Err(NotFound);
      }
      return Ok(log);
    }

    method GetSubmission(p: Principal, sid: string) returns (r: Result<Submission, Error>)
      requires Valid()
      ensures EventsAnswer(logs, p, sid).Err? ==> r == Err(NotFound)
      ensures EventsAnswer(logs, p, sid).Ok? ==> r == Ok(StateOf(logs[sid]))
    {
      var events := GetEvents(p, sid);
      if events.Err? {
        return Err(events.error);
      }
      FoldSucceedsIff(events.value);
      var sub := FoldEvents(events.value);
      return Ok(sub.value);
    }

    /** `list_submissions`: fold every visible log, filter by status, sort newest first, cut. */
    method ListSubmissions(p: Principal, status: Option<Status>, limit: int) returns (r: Result<seq<Submission>, Error>)
      requires Valid()
      ensures r == if limit < 1 then Err(BadLimit) else Ok(ExactListing(logs, p, status, limit))
    {
      hide StateOf, WithStatus, Fold, Collects;
      CollectNothing(logs, p);
      if limit < 1 {
        return Err(BadLimit);
      }
      var subs: seq<Submission> := [];
      var todo := logs.Keys;
      ghost var done := {};
      while todo != {}
        invariant todo + done == logs.Keys && todo !! done
        invariant Collects(subs, logs, p, done)
        decreases todo
      {
        var sid :| sid in todo;
        if p.Sees(logs[sid][0].accountId) {
          FoldOfLog(logs[sid]);
          var sub := FoldEvents(logs[sid]);
          if sub.Ok? {
            CollectOne(subs, logs, p, done, sid);
            subs := subs + [sub.value];
          }
        } else {
          CollectNone(subs, logs, p, done, sid);
        }
        todo, done := todo - {sid}, done + {sid};
      }
      SortedCollection(subs, logs, p, status);
      return Ok(Take(SortNewest(WithStatus(subs, status), SUBMISSION_KEY), limit));
    }
  }
}
