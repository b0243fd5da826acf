/** The submission repository over a SQL table keyed by (submission_id, seq), used by one process at a time. */
module SqlStore {
  import opened Prelude
  import opened Events
  import opened Folding
  import opened Repository
  import opened Listing

  /** The event table. Each statement on it is atomic. */
  type Table = map<(string, int), Event>

  /** The table holds exactly the events of `logs`, each under its own key. */
  predicate Represents(t: Table, logs: Logs) {
    StoreOk(logs) && SameRows(t, logs)
  }

  predicate SameRows(t: Table, logs: Logs) {
    && (forall k <- t :: k.0 in logs && 1 <= k.1 <= |logs[k.0]| && t[k] == logs[k.0][k.1 - 1])
    && (forall sid, n | sid in logs && 1 <= n <= |logs[sid]| :: (sid, n) in t)
  }

  // -------------------------------------------------------------- statements

  /** One row of `SELECT MIN(account_id), MAX(seq) ... WHERE submission_id = sid`; the columns are NULL without rows. */
  datatype Head = NoRows | Head(account: string, maxSeq: int)

  predicate IsHead(t: Table, sid: string, h: Head) {
    match h
    case NoRows => forall k <- t :: k.0 != sid
    case Head(account, maxSeq) =>
      && (sid, maxSeq) in t
      && (forall k <- t :: k.0 == sid ==> k.1 <= maxSeq && !StrLess(t[k].accountId, account))
      && exists k <- t :: k.0 == sid && t[k].accountId == account
  }

  method QueryHead(t: Table, sid: string) returns (h: Head)
    ensures IsHead(t, sid, h)
  {
    h := NoRows;
    var todo := t.Keys;
    ghost var done: Table := map[];
    while todo != {}
      invariant todo <= t.Keys && done == t - todo
      invariant IsHead(done, sid, h)
      decreases todo
    {
      var k :| k in todo;
      var before := h;
      if k.0 == sid {
        var account := t[k].accountId;
        match h {
          case NoRows =>
            h := Head(account, k.1);
            StrLessIrreflexive(account);
          case Head(a, m) =>
            h := Head(if StrLess(account, a) then account else a, if m < k.1 then k.1 else m);
            MinimumMoves(done, sid, a, account);
        }
      }
      ghost var next := done[k := t[k]];
      assert forall j <- done :: j in next && next[j] == done[j];
      assert k in next;
      todo := todo - {k};
      assert next == t - todo;
      done := next;
    }
    assert done == t;
  }

  lemma MinimumMoves(t: Table, sid: string, a: string, account: string)
    requires forall k <- t :: k.0 == sid ==> !StrLess(t[k].accountId, a)
    ensures StrLess(account, a) ==> forall k <- t :: k.0 == sid ==> !StrLess(t[k].accountId, account)
    ensures !StrLess(account, account)
  {
    StrLessIrreflexive(account);
    if StrLess(account, a) {
      forall k <- t | k.0 == sid && StrLess(t[k].accountId, account)
        ensures false
      {
        StrLessTransitive(t[k].accountId, account, a);
      }
    }
  }

  /** `SELECT ... WHERE submission_id = sid [AND account_id IN (...)] ORDER BY seq`. */
  method SelectEvents(t: Table, p: Principal, sid: string) returns (rows: seq<Event>)
    requires forall k <- t :: t[k].seqNo == k.1
    ensures forall i, j :: 0 <= i < j < |rows| ==> rows[i].seqNo < rows[j].seqNo
    ensures forall e :: e in rows <==> (sid, e.seqNo) in t && t[(sid, e.seqNo)] == e && p.Sees(e.accountId)
  {
    var found: seq<Event> := [];
    var todo := t.Keys;
    while todo != {}
      invariant todo <= t.Keys
      invariant forall e :: e in found <==>
                (sid, e.seqNo) in t && (sid, e.seqNo) !in todo && t[(sid, e.seqNo)] == e && p.Sees(e.accountId)
      invariant forall i, j :: 0 <= i < j < |found| ==> found[i].seqNo != found[j].seqNo
      decreases todo
    {
      var k :| k in todo;
      todo := todo - {k};
      if k.0 == sid && p.Sees(t[k].accountId) {
        assert (sid, t[k].seqNo) == k;
        found := found + [t[k]];
      }
    }
    rows := SortBySeq(found);
    SortKeepsDistinct(found);
    forall e
      ensures e in rows <==> e in found
    {
      assert e in rows <==> e in multiset(rows);
    }
  }

  /** The inner query of a listing: `WHERE seq = 1 [AND account_id IN (...)] ORDER BY occurred_at DESC, ... LIMIT n`. */
  method SelectHeads(t: Table, p: Principal, n: nat) returns (heads: seq<Event>)
    requires forall k <- t :: t[k].submissionId == k.0
    ensures exists all :: IsHeads(all, t, p) && heads == Take(all, n)
  {
    var found: seq<Event> := [];
    var todo := t.Keys;
    while todo != {}
      invariant todo <= t.Keys
      invariant forall e :: e in found <==>
                (e.submissionId, 1) in t && (e.submissionId, 1) !in todo && t[(e.submissionId, 1)] == e && p.Sees(e.accountId)
      invariant forall i, j :: 0 <= i < j < |found| ==> found[i].submissionId != found[j].submissionId
      decreases todo
    {
      var k :| k in todo;
      todo := todo - {k};
      if k.1 == 1 && p.Sees(t[k].accountId) {
        assert (t[k].submissionId, 1) == k;
        found := found + [t[k]];
      }
    }
    SortNewestSorts(found, EVENT_KEY);
    var all := SortNewest(found, EVENT_KEY);
    assert IsHeads(all, t, p);
    return Take(all, n);
  }

  /** The visible first rows, newest first. */
  ghost predicate IsHeads(all: seq<Event>, t: Table, p: Principal) {
    && Descending(all, EVENT_KEY)
    && forall e :: e in all <==> (e.submissionId, 1) in t && t[(e.submissionId, 1)] == e && p.Sees(e.accountId)
  }

  /** The rows of one submission, in the order in which they come. */
  function RowsFor(rows: seq<Event>, sid: string): seq<Event> {
    if |rows| == 0 then []
    else
      var last := rows[|rows| - 1];
      RowsFor(rows[..|rows| - 1], sid) + if last.submissionId == sid then [last] else []
  }

  lemma {:induction false} RowsForLog(rows: seq<Event>, log: seq<Event>, own: string, sid: string)
    requires forall i :: 0 <= i < |log| ==> log[i].submissionId == own
    ensures RowsFor(rows + log, sid) == RowsFor(rows, sid) + if sid == own then log else []
  {
    hide RowsFor;
    if |log| == 0 {
      assert rows + log == rows;
    } else {
      var n := |log| - 1;
      RowsForLog(rows, log[..n], own, sid);
      RowsForOne(rows + log[..n], log[n], sid);
      assert rows + log == rows + log[..n] + [log[n]];
      assert log == log[..n] + [log[n]];
    }
  }

  lemma RowsForOne(rows: seq<Event>, e: Event, sid: string)
    ensures RowsFor(rows + [e], sid) == RowsFor(rows, sid) + if e.submissionId == sid then [e] else []
  {
    assert (rows + [e])[..|rows|] == rows;
  }

  predicate AmongHeads(heads: seq<Event>, sid: string) {
    exists i :: 0 <= i < |heads| && heads[i].submissionId == sid
  }

  predicate DistinctHeads(heads: seq<Event>) {
    forall i, j :: 0 <= i < j < |heads| ==> heads[i].submissionId != heads[j].submissionId
  }

  /** `rows` holds the whole logs of the submissions among `heads`, and nothing else. */
  ghost predicate Joined(rows: seq<Event>, heads: seq<Event>, logs: Logs)
    requires forall i :: 0 <= i < |heads| ==> heads[i].submissionId in logs
  {
    forall sid :: RowsFor(rows, sid) == if AmongHeads(heads, sid) then logs[sid] else []
  }

  lemma JoinOne(rows: seq<Event>, heads: seq<Event>, i: nat, logs: Logs)
    requires StoreOk(logs) && DistinctHeads(heads) && i < |heads|
    requires forall j :: 0 <= j < |heads| ==> heads[j].submissionId in logs
    requires Joined(rows, heads[..i], logs)
    ensures Joined(rows + logs[heads[i].submissionId], heads[..i + 1], logs)
  {
    var own := heads[i].submissionId;
    forall sid
      ensures RowsFor(rows + logs[own], sid) == if AmongHeads(heads[..i + 1], sid) then logs[sid] else []
    {
      RowsForLog(rows, logs[own], own, sid);
      MoreHeads(heads, i, sid);
    }
  }

  /** The outer query of a listing: all rows of the submissions among `heads`, each submission's rows in sequence order. */
  method SelectJoined(t: Table, heads: seq<Event>, ghost logs: Logs) returns (rows: seq<Event>)
    requires Represents(t, logs) && DistinctHeads(heads)
    requires forall i :: 0 <= i < |heads| ==> heads[i].submissionId in logs
    ensures Joined(rows, heads, logs)
  {
    rows := [];
    for i := 0 to |heads|
      invariant Joined(rows, heads[..i], logs)
    {
      var own := heads[i].submissionId;
      var part := SelectEvents(t, SYSTEM, own);
      SelectionIsLog(t, logs, SYSTEM, own, part);
      JoinOne(rows, heads, i, logs);
      rows := rows + part;
    }
    assert heads[..|heads|] == heads;
  }

  lemma MoreHeads(heads: seq<Event>, i: nat, sid: string)
    requires i < |heads| && DistinctHeads(heads)
    ensures AmongHeads(heads[..i + 1], sid) <==> AmongHeads(heads[..i], sid) || sid == heads[i].submissionId
    ensures sid == heads[i].submissionId ==> !AmongHeads(heads[..i], sid)
  {
    if AmongHeads(heads[..i], sid) {
      var j :| 0 <= j < i && heads[..i][j].submissionId == sid;
      assert heads[..i + 1][j].submissionId == sid;
    }
    if sid == heads[i].submissionId {
      assert heads[..i + 1][i].submissionId == sid;
    }
  }

  predicate DistinctSeqs(log: seq<Event>) {
    forall i, j :: 0 <= i < j < |log| ==> log[i].seqNo != log[j].seqNo
  }

  lemma {:induction false} InsertKeepsDistinct(e: Event, sorted: seq<Event>)
    requires DistinctSeqs(sorted) && forall i :: 0 <= i < |sorted| ==> sorted[i].seqNo != e.seqNo
    ensures DistinctSeqs(InsertBySeq(e, sorted))
  {
    if |sorted| > 0 && sorted[|sorted| - 1].seqNo > e.seqNo {
      var init, last := sorted[..|sorted| - 1], sorted[|sorted| - 1];
      InsertKeepsDistinct(e, init);
      var r := InsertBySeq(e, init);
      forall i | 0 <= i < |r|
        ensures r[i].seqNo != last.seqNo
      {
        InsertMembers(e, init);
        assert r[i] in r;
      }
    }
  }

  lemma {:induction false} SortKeepsDistinct(events: seq<Event>)
    requires DistinctSeqs(events)
    ensures DistinctSeqs(SortBySeq(events)) && SortedBySeq(SortBySeq(events))
  {
    SortIsSorted(events);
    if |events| > 0 {
      var n := |events| - 1;
      SortKeepsDistinct(events[..n]);
      var r := SortBySeq(events[..n]);
      forall i | 0 <= i < |r|
        ensures r[i].seqNo != events[n].seqNo
      {
        assert r[i] in multiset(events[..n]);
      }
      InsertKeepsDistinct(events[n], r);
    }
  }

  /** `INSERT ... ON CONFLICT (submission_id, seq) DO NOTHING`, `INSERT OR IGNORE` and the conditional MERGE alike. */
  function Inserted(t: Table, e: Event): Table {
    if (e.submissionId, e.seqNo) in t then t else t[(e.submissionId, e.seqNo) := e]
  }

  /** The number of rows the insert reports. */
  function InsertCount(t: Table, e: Event): nat {
    if (e.submissionId, e.seqNo) in t then 0 else 1
  }

  // ---------------------------------------------------------------- appending

  /** `_check_create`: reads nothing. */
  function CheckCreate(p: Principal, e: Event): Option<Error> {
    if !e.payload.Submitted? then Some(NotFound)
    else if p.IsScoped() && e.accountId !in p.accountIds then Some(NotFound)
    else None
  }

  /** `_check_append` on the row its query returned. */
  function CheckAppend(h: Head, p: Principal, expected: int, e: Event): Option<Error> {
    if h.NoRows? || (p.IsScoped() && h.account !in p.accountIds) then Some(NotFound)
    else if e.payload.Submitted? then Some(BadEvent)
    else if e.accountId != h.account then Some(BadEvent)
    else if h.maxSeq != expected then Some(Conflict)
    else None
  }

  /** What the SQL repository answers when no other process interferes. */
  function SqlAnswer(logs: Logs, p: Principal, sid: string, expected: int, e: Event): Result<int, Error>
    requires StoreOk(logs)
  {
    if e.submissionId != sid || e.seqNo != expected + 1 then Err(BadEvent)
    else if expected == 0 then
      match CheckCreate(p, e)
      case Some(error) => Err(error)
      case None => if sid in logs then Err(Conflict) else Ok(e.seqNo)
    else AppendAnswer(logs, p, sid, expected, e)
  }

  /** A create over an existing id that the two stores refuse with different errors. */
  predicate ErrorsDiffer(logs: Logs, p: Principal, sid: string, expected: int, e: Event)
    requires StoreOk(logs)
  {
    && e.submissionId == sid && e.seqNo == 1 && expected == 0 && sid in logs
    && (!e.payload.Submitted? || !p.Sees(e.accountId) ==> p.Sees(logs[sid][0].accountId))
  }

  /** Both stores accept the same appends, and answer differently exactly for such creates. */
  lemma StoresAgree(logs: Logs, p: Principal, sid: string, expected: int, e: Event)
    requires StoreOk(logs)
    ensures SqlAnswer(logs, p, sid, expected, e).Ok? <==> AppendAnswer(logs, p, sid, expected, e).Ok?
    ensures SqlAnswer(logs, p, sid, expected, e) != AppendAnswer(logs, p, sid, expected, e) <==>
            ErrorsDiffer(logs, p, sid, expected, e)
  {
  }

  /** For instance a customer's submit under an id in use is a bad event for one store and a conflict for the other. */
  lemma ErrorsDifferExample(e: Event, p: Principal)
    requires e.seqNo == 1 && e.payload.Submitted? && p.Sees(e.accountId)
    ensures var logs: Logs := map[e.submissionId := [e]];
            && StoreOk(logs)
            && AppendAnswer(logs, p, e.submissionId, 0, e) == Err(BadEvent)
            && SqlAnswer(logs, p, e.submissionId, 0, e) == Err(Conflict)
  {
    var logs: Logs := map[e.submissionId := [e]];
    assert WellFormed(logs[e.submissionId]);
  }

  /** The head row of a table that represents well-formed logs. */
  lemma HeadOfLog(t: Table, logs: Logs, sid: string, h: Head)
    requires Represents(t, logs) && IsHead(t, sid, h)
    ensures h == if sid in logs then Head(logs[sid][0].accountId, |logs[sid]|) else NoRows
  {
    if sid in logs {
      assert (sid, |logs[sid]|) in t;
    }
  }

  lemma InsertExtends(t: Table, logs: Logs, e: Event)
    requires SameRows(t, logs)
    requires e.seqNo == 1 + if e.submissionId in logs then |logs[e.submissionId]| else 0
    ensures InsertCount(t, e) == 1 && SameRows(Inserted(t, e), Extended(logs, e))
  {
    var sid, ext := e.submissionId, Extended(logs, e);
    assert (sid, e.seqNo) !in t;
    assert forall i :: 0 <= i < e.seqNo - 1 ==> ext[sid][i] == logs[sid][i];
    assert ext[sid][e.seqNo - 1] == e;
  }

  class SqlSubmissionRepository {
    var table: Table
    ghost var logs: Logs

    ghost predicate Valid()
      reads this
    {
      Represents(table, logs)
    }

    constructor ()
      ensures Valid() && table == map[] && logs == map[]
    {
      table, logs := map[], map[];
    }

    method AppendEvent(p: Principal, sid: string, expected: int, e: Event) returns (r: Result<int, Error>)
      requires Valid()
      modifies this
      ensures Valid()
      ensures r == SqlAnswer(old(logs), p, sid, expected, e)
      ensures logs == AfterAppend(old(logs), p, sid, expected, e)
      ensures r.Err? ==> table == old(table)
    {
      StoresAgree(logs, p, sid, expected, e);
      AcceptedIff(logs, p, sid, expected, e);
      if e.submissionId != sid {
        return Err(BadEvent);
      }
      if e.seqNo != expected + 1 {
        return Err(BadEvent);
      }
      var failure: Option<Error>;
      if expected == 0 {
        failure := CheckCreate(p, e);
      } else {
        var h := QueryHead(table, sid);
        HeadOfLog(table, logs, sid, h);
        failure := CheckAppend(h, p, expected, e);
      }
      if failure.Some? {
        return Err(failure.value);
      }
      var inserted := Insert(e);
      if inserted == 0 {
        return Err(Conflict);
      }
      return Ok(e.seqNo);
    }

    /** Runs the dialect's insert statement. */
    method Insert(e: Event) returns (inserted: nat)
      requires Valid()
      requires e.submissionId in logs ==> e.seqNo == 1 || e.seqNo == |logs[e.submissionId]| + 1
      requires e.submissionId !in logs ==> e.seqNo == 1
      requires (e.submissionId in logs ==> e.seqNo != 1) ==> StoreOk(Extended(logs, e))
      modifies this
      ensures Valid()
      ensures inserted == if e.submissionId in old(logs) && e.seqNo == 1 then 0 else 1
      ensures logs == if inserted == 0 then old(logs) else Extended(old(logs), e)
      ensures inserted == 0 ==> table == old(table)
    {
      inserted := InsertCount(table, e);
      if e.submissionId in logs && e.seqNo == 1 {
        assert (e.submissionId, 1) in table;
      } else {
        InsertExtends(table, logs, e);
        logs := Extended(logs, e);
      }
      table := Inserted(table, e);
    }

    method GetEvents(p: Principal, sid: string) returns (r: Result<seq<Event>, Error>)
      requires Valid()
      ensures r == EventsAnswer(logs, p, sid)
    {
      if p.IsScoped() && p.accountIds == {} {
        return Err(NotFound);
      }
      var rows := SelectEvents(table, p, sid);
      SelectionIsLog(table, logs, p, sid, rows);
      if |rows| == 0 {
        return Err(NotFound);
      }
      return Ok(rows);
    }

    method GetSubmission(p: Principal, sid: string) returns (r: Result<Submission, Error>)
      requires Valid()
      ensures EventsAnswer(logs, p, sid).Err? ==> r == Err(NotFound)
      ensures EventsAnswer(logs, p, sid).Ok? ==> r == Ok(StateOf(logs[sid]))
    {
      var events := GetEvents(p, sid);
      if events.Err? {
        return Err(events.error);
      }
      FoldSucceedsIff(events.value);
      var sub := FoldEvents(events.value);
      return Ok(sub.value);
    }

    /** `list_submissions`: newest candidates first, then fold, filter, sort and cut. */
    method ListSubmissions(p: Principal, status: Option<Status>, limit: int) returns (r: Result<seq<Submission>, Error>)
      requires Valid()
      ensures r == if limit < 1 then Err(BadLimit) else Ok(PushedListing(logs, p, status, limit))
    {
      if limit < 1 {
        return Err(BadLimit);
      }
      if p.IsScoped() && p.accountIds == {} {
        NothingVisible(logs, p);
        return Ok([]);
      }
      var heads := SelectHeads(table, p, Candidates(status, limit));
      CandidateHeads(table, logs, p, heads, Candidates(status, limit));
      var rows := SelectJoined(table, heads, logs);
      var grouped := Group(rows);
      GroupsAreCandidates(grouped, rows, heads, logs, p);
      var subs := FoldAll(grouped, logs, p);
      CollectedCandidates(subs, logs, p, heads, grouped.Keys, Candidates(status, limit), status);
      return Ok(Take(SortNewest(WithStatus(subs, status), SUBMISSION_KEY), limit));
    }
  }

  /** `logs.setdefault(e.submission_id, []).append(e)` for every row. */
  method Group(rows: seq<Event>) returns (grouped: map<string, seq<Event>>)
    ensures forall sid :: sid in grouped <==> RowsFor(rows, sid) != []
    ensures forall sid <- grouped :: grouped[sid] == RowsFor(rows, sid)
  {
    grouped := map[];
    for i := 0 to |rows|
      invariant forall sid :: sid in grouped <==> RowsFor(rows[..i], sid) != []
      invariant forall sid <- grouped :: grouped[sid] == RowsFor(rows[..i], sid)
    {
      var e := rows[i];
      assert rows[..i + 1][..i] == rows[..i];
      grouped := grouped[e.submissionId := (if e.submissionId in grouped then grouped[e.submissionId] else []) + [e]];
    }
    assert rows[..|rows|] == rows;
  }

  method FoldAll(grouped: map<string, seq<Event>>, ghost logs: Logs, ghost p: Principal) returns (subs: seq<Submission>)
    requires StoreOk(logs) && forall sid <- grouped :: Visible(logs, p, sid) && grouped[sid] == logs[sid]
    ensures Collects(subs, logs, p, grouped.Keys)
  {
    hide StateOf, Fold, Collects, WellFormed;
    CollectNothing(logs, p);
    subs := [];
    var todo := grouped.Keys;
    ghost var done := {};
    while todo != {}
      invariant todo + done == grouped.Keys && todo !! done
      invariant Collects(subs, logs, p, done)
      decreases todo
    {
      var sid :| sid in todo;
      FoldOfLog(logs[sid]);
      var sub := FoldEvents(grouped[sid]);
      if sub.Ok? {
        CollectOne(subs, logs, p, done, sid);
        subs := subs + [sub.value];
      }
      todo, done := todo - {sid}, done + {sid};
    }
  }

  /** The folded candidates, filtered and sorted again, are the filtered front of the newest-first list. */
  lemma CollectedCandidates(
      subs: seq<Submission>, logs: Logs, p: Principal, heads: seq<Event>, sids: set<string>, c: nat, status: Option<Status>)
    requires StoreOk(logs) && Collects(subs, logs, p, sids)
    requires forall sid :: sid in sids <==> AmongHeads(heads, sid)
    requires |heads| == |Take(NewestFirst(logs, p), c)|
    requires forall i :: 0 <= i < |heads| ==> heads[i].submissionId == NewestFirst(logs, p)[i].submissionId
    ensures SortNewest(WithStatus(subs, status), SUBMISSION_KEY) == WithStatus(Take(NewestFirst(logs, p), c), status)
  {
    var front := Take(NewestFirst(logs, p), c);
    forall s
      ensures s in subs <==> s in front
    {
      if s in subs {
        assert AmongHeads(heads, s.submissionId);
        var i :| 0 <= i < |heads| && heads[i].submissionId == s.submissionId;
        assert front[i] == s;
      }
      if s in front {
        var i :| 0 <= i < |front| && front[i] == s;
        assert heads[i].submissionId == s.submissionId;
        assert StateOf(logs[s.submissionId]) in subs;
      }
    }
    DescendingPart(NewestFirst(logs, p), c, SUBMISSION_KEY);
    SortedFilter(subs, front, status);
  }

  lemma NothingVisible(logs: Logs, p: Principal)
    requires StoreOk(logs) && p.IsScoped() && p.accountIds == {}
    ensures NewestFirst(logs, p) == []
  {
    var all := NewestFirst(logs, p);
    assert |all| > 0 ==> Visible(logs, p, all[0].submissionId);
  }

  /** The first events of the submissions in a list. */
  function FirstsOf(subs: seq<Submission>, logs: Logs): (firsts: seq<Event>)
    requires StoreOk(logs) && forall i :: 0 <= i < |subs| ==> subs[i].submissionId in logs
    ensures |firsts| == |subs| && forall i :: 0 <= i < |subs| ==> firsts[i] == logs[subs[i].submissionId][0]
  {
    seq(|subs|, i requires 0 <= i < |subs| => logs[subs[i].submissionId][0])
  }

  lemma FirstsDescend(subs: seq<Submission>, logs: Logs, p: Principal)
    requires StoreOk(logs) && IsNewestFirst(subs, logs, p)
    ensures Descending(FirstsOf(subs, logs), EVENT_KEY)
  {
    var firsts := FirstsOf(subs, logs);
    forall i | 0 <= i < |subs|
      ensures EVENT_KEY(firsts[i]) == SUBMISSION_KEY(subs[i])
    {
      FoldedProvenance(logs[subs[i].submissionId]);
    }
  }

  lemma FirstsAreHeads(subs: seq<Submission>, t: Table, logs: Logs, p: Principal, e: Event)
    requires Represents(t, logs) && IsNewestFirst(subs, logs, p)
    ensures e in FirstsOf(subs, logs) <==> (e.submissionId, 1) in t && t[(e.submissionId, 1)] == e && p.Sees(e.accountId)
  {
    var sid, firsts := e.submissionId, FirstsOf(subs, logs);
    if (sid, 1) in t && t[(sid, 1)] == e && p.Sees(e.accountId) {
      assert Visible(logs, p, sid);
      var i :| 0 <= i < |subs| && subs[i] == StateOf(logs[sid]);
      FoldedProvenance(logs[sid]);
      assert firsts[i] == e;
    }
    if e in firsts {
      var i :| 0 <= i < |firsts| && firsts[i] == e;
      assert (sid, 1) in t;
    }
  }

  lemma HeadsAreFirsts(t: Table, logs: Logs, p: Principal, all: seq<Event>)
    requires Represents(t, logs) && IsHeads(all, t, p)
    ensures all == FirstsOf(NewestFirst(logs, p), logs)
  {
    hide StateOf, WellFormed;
    var subs := NewestFirst(logs, p);
    var firsts := FirstsOf(subs, logs);
    FirstsDescend(subs, logs, p);
    forall e
      ensures e in all <==> e in firsts
    {
      FirstsAreHeads(subs, t, logs, p, e);
    }
    DescendingUnique(all, firsts, EVENT_KEY);
  }

  /** Ordering by the first rows orders the submissions: the heads are those of the newest-first list. */
  lemma CandidateHeads(t: Table, logs: Logs, p: Principal, heads: seq<Event>, c: nat)
    requires Represents(t, logs) && exists all :: IsHeads(all, t, p) && heads == Take(all, c)
    ensures |heads| == |Take(NewestFirst(logs, p), c)| && DistinctHeads(heads)
    ensures forall i :: 0 <= i < |heads| ==>
              && heads[i].submissionId == NewestFirst(logs, p)[i].submissionId && heads[i].submissionId in logs
              && Visible(logs, p, heads[i].submissionId)
  {
    hide StateOf, IsHeads, Descending;
    var all :| IsHeads(all, t, p) && heads == Take(all, c);
    HeadsAreFirsts(t, logs, p, all);
  }

  lemma GroupsAreCandidates(
      grouped: map<string, seq<Event>>, rows: seq<Event>, heads: seq<Event>, logs: Logs, p: Principal)
    requires StoreOk(logs)
    requires forall i :: 0 <= i < |heads| ==> heads[i].submissionId in logs && Visible(logs, p, heads[i].submissionId)
    requires Joined(rows, heads, logs)
    requires forall sid :: sid in grouped <==> RowsFor(rows, sid) != []
    requires forall sid <- grouped :: grouped[sid] == RowsFor(rows, sid)
    ensures forall sid :: sid in grouped <==> AmongHeads(heads, sid)
    ensures forall sid <- grouped :: Visible(logs, p, sid) && grouped[sid] == logs[sid]
  {
  }

  /** Row-level scoping shows a whole log or nothing, because all its rows carry one account. */
  lemma SelectionIsLog(t: Table, logs: Logs, p: Principal, sid: string, rows: seq<Event>)
    requires Represents(t, logs)
    requires forall i, j :: 0 <= i < j < |rows| ==> rows[i].seqNo < rows[j].seqNo
    requires forall e :: e in rows <==> (sid, e.seqNo) in t && t[(sid, e.seqNo)] == e && p.Sees(e.accountId)
    ensures rows == if sid in logs && p.Sees(logs[sid][0].accountId) then logs[sid] else []
  {
    if sid in logs && p.Sees(logs[sid][0].accountId) {
      var log := logs[sid];
      forall i | 0 <= i < |log|
        ensures log[i] in rows
      {
        assert (sid, i + 1) in t && log[i].seqNo == i + 1 && log[i].accountId == log[0].accountId;
      }
      forall i | 0 <= i < |rows|
        ensures 1 <= rows[i].seqNo <= |log| && rows[i] == log[rows[i].seqNo - 1]
      {
        assert rows[i] in rows;
      }
      AscendingCover(rows, log);
    } else {
      FirstIsMember(rows);
    }
  }

  /** Tables that agree on the rows of the caller's accounts hold the same logs as far as the caller can see. */
  lemma OwnRowsDecide(p: Principal, t: Table, a: Logs, u: Table, b: Logs)
    requires Represents(t, a) && Represents(u, b)
    requires forall k <- t :: p.Sees(t[k].accountId) ==> k in u && u[k] == t[k]
    requires forall k <- u :: p.Sees(u[k].accountId) ==> k in t && t[k] == u[k]
    ensures AgreeFor(p, a, b)
  {
    forall sid <- a | Visible(a, p, sid)
      ensures sid in b && a[sid] == b[sid]
    {
      OwnLogShared(p, t, a, u, b, sid);
    }
    forall sid <- b | Visible(b, p, sid)
      ensures sid in a && a[sid] == b[sid]
    {
      OwnLogShared(p, u, b, t, a, sid);
    }
  }

  lemma OwnLogPrefix(p: Principal, t: Table, a: Logs, u: Table, b: Logs, sid: string)
    requires Represents(t, a) && Represents(u, b) && Visible(a, p, sid)
    requires forall k <- t :: p.Sees(t[k].accountId) ==> k in u && u[k] == t[k]
    ensures sid in b && a[sid] <= b[sid]
  {
    forall i | 0 <= i < |a[sid]|
      ensures sid in b && i < |b[sid]| && b[sid][i] == a[sid][i]
    {
      assert (sid, i + 1) in t;
    }
    assert b[sid][0] == a[sid][0];
    var last := |a[sid]| - 1;
    assert last < |b[sid]| && b[sid][last] == a[sid][last];
  }

  lemma OwnLogShared(p: Principal, t: Table, a: Logs, u: Table, b: Logs, sid: string)
    requires Represents(t, a) && Represents(u, b) && Visible(a, p, sid)
    requires forall k <- t :: p.Sees(t[k].accountId) ==> k in u && u[k] == t[k]
    requires forall k <- u :: p.Sees(u[k].accountId) ==> k in t && t[k] == u[k]
    ensures sid in b && a[sid] == b[sid]
  {
    OwnLogPrefix(p, t, a, u, b, sid);
    assert b[sid][0] == a[sid][0];
    OwnLogPrefix(p, u, b, t, a, sid);
  }

  /** Ascending rows that cover 1..n and nothing else are the log itself. */
  lemma AscendingCover(rows: seq<Event>, log: seq<Event>)
    requires forall i :: 0 <= i < |log| ==> log[i].seqNo == i + 1 && log[i] in rows
    requires forall i, j :: 0 <= i < j < |rows| ==> rows[i].seqNo < rows[j].seqNo
    requires forall i :: 0 <= i < |rows| ==> 1 <= rows[i].seqNo <= |log| && rows[i] == log[rows[i].seqNo - 1]
    ensures rows == log
  {
    var m := 0;
    while m < |rows|
      invariant m <= |rows| && forall j :: 0 <= j < m ==> rows[j].seqNo > j
    {
      assert m > 0 ==> rows[m - 1].seqNo < rows[m].seqNo;
      m := m + 1;
    }
    assert |rows| > 0 ==> rows[|rows| - 1].seqNo <= |log|;
    var i := 0;
    while i < |log|
      invariant i <= |log| && i <= |rows| <= |log|
      invariant forall j :: 0 <= j < i ==> rows[j].seqNo == j + 1
    {
      assert log[i] in rows;
      var k :| 0 <= k < |rows| && rows[k] == log[i];
      assert k >= i;
      assert i > 0 ==> rows[i - 1].seqNo < rows[i].seqNo;
      i := i + 1;
    }
  }
}
