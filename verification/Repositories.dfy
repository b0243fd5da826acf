/** The submission repository port: either store behind one interface. */
module Repositories {
  import opened Prelude
  import opened Events
  import opened Folding
  import opened Repository
  import opened Listing
  import opened MemoryStore
  import opened SqlStore

  datatype SubmissionRepository = InMemory(memory: InMemorySubmissionRepository) | OverSql(sql: SqlSubmissionRepository) {
    function Backend(): Backend {
      if InMemory? then Memory else Sql
    }

    ghost function Objects(): set<object> {
      match this
      case InMemory(m) => {m}
      case OverSql(s) => {s}
    }

    ghost predicate Valid()
      reads Objects()
    {
      match this
      case InMemory(m) => m.Valid()
      case OverSql(s) => s.Valid()
    }

    ghost function Logs(): (logs: Logs)
      requires Valid()
      reads Objects()
      ensures StoreOk(logs)
    {
      match this
      case InMemory(m) => m.logs
      case OverSql(s) => s.logs
    }

    /** The stores may name different errors, but only for a create. */
    method AppendEvent(p: Principal, sid: string, expected: int, e: Event) returns (r: Result<int, Error>)
      requires Valid()
      modifies Objects()
      ensures Valid() && Logs() == AfterAppend(old(Logs()), p, sid, expected, e)
      ensures r.Ok? <==> AppendAnswer(old(Logs()), p, sid, expected, e).Ok?
      ensures expected != 0 ==> r == AppendAnswer(old(Logs()), p, sid, expected, e)
    {
      match this {
        case InMemory(m) => r := m.AppendEvent(p, sid, expected, e);
        case OverSql(s) =>
          StoresAgree(s.logs, p, sid, expected, e);
          r := s.AppendEvent(p, sid, expected, e);
      }
    }

    method GetEvents(p: Principal, sid: string) returns (r: Result<seq<Event>, Error>)
      requires Valid()
      ensures r == EventsAnswer(Logs(), p, sid)
    {
      match this {
        case InMemory(m) => r := m.GetEvents(p, sid);
        case OverSql(s) => r := s.GetEvents(p, sid);
      }
    }

    method ListSubmissions(p: Principal, status: Option<Status>, limit: int) returns (r: Result<seq<Submission>, Error>)
      requires Valid()
      ensures r == if limit < 1 then Err(BadLimit) else Ok(ListingOf(Backend(), Logs(), p, status, limit))
    {
      match this {
        case InMemory(m) => r := m.ListSubmissions(p, status, limit);
        case OverSql(s) => r := s.ListSubmissions(p, status, limit);
      }
    }
  }
}
