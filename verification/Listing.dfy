/** Listings: submissions newest first, the exact answer and the one with the limit pushed below the fold. */
module Listing {
  import opened Prelude
  import opened Events
  import opened Folding
  import opened Repository

  /** The sort key of a listing. */
  datatype Key = Key(at: Time, sid: string)

  predicate Newer(a: Key, b: Key) {
    a.at > b.at || (a.at == b.at && StrLess(b.sid, a.sid))
  }

  const SUBMISSION_KEY := (s: Submission) => Key(s.submittedAt, s.submissionId)
  const EVENT_KEY := (e: Event) => Key(e.occurredAt, e.submissionId)

  lemma NewerIrreflexive(a: Key)
    ensures !Newer(a, a)
  {
    StrLessIrreflexive(a.sid);
  }

  lemma NewerTotal(a: Key, b: Key)
    ensures Newer(a, b) || Newer(b, a) || a == b
  {
    StrLessTotal(a.sid, b.sid);
  }

  lemma NewerTransitive(a: Key, b: Key, c: Key)
    requires Newer(a, b) && Newer(b, c)
    ensures Newer(a, c)
  {
    if a.at == b.at == c.at {
      StrLessTransitive(c.sid, b.sid, a.sid);
    }
  }

  // ------------------------------------------------------------------ sorting

  ghost predicate Descending<T(!new)>(xs: seq<T>, key: T -> Key) {
    forall i, j :: 0 <= i < j < |xs| ==> Newer(key(xs[i]), key(xs[j]))
  }

  predicate DistinctKeys<T(!new)>(xs: seq<T>, key: T -> Key) {
    forall i, j :: 0 <= i < j < |xs| ==> key(xs[i]) != key(xs[j])
  }

  function InsertNewest<T>(x: T, sorted: seq<T>, key: T -> Key): (r: seq<T>) {
    if |sorted| == 0 || Newer(key(x), key(sorted[0])) then [x] + sorted
    else [sorted[0]] + InsertNewest(x, sorted[1..], key)
  }

  /** `xs.sort(key=..., reverse=True)` and `ORDER BY ... DESC`, for distinct keys. */
  function SortNewest<T>(xs: seq<T>, key: T -> Key): (r: seq<T>) {
    if |xs| == 0 then [] else InsertNewest(xs[0], SortNewest(xs[1..], key), key)
  }

  lemma {:induction false} InsertNewestSorts<T(!new)>(x: T, sorted: seq<T>, key: T -> Key)
    requires Descending(sorted, key) && forall i :: 0 <= i < |sorted| ==> key(sorted[i]) != key(x)
    ensures Descending(InsertNewest(x, sorted, key), key)
    ensures forall y :: y in InsertNewest(x, sorted, key) <==> y in sorted || y == x
  {
    if |sorted| > 0 {
      if Newer(key(x), key(sorted[0])) {
        forall i | 0 < i < |sorted|
          ensures Newer(key(x), key(sorted[i]))
        {
          NewerTransitive(key(x), key(sorted[0]), key(sorted[i]));
        }
      } else {
        NewerTotal(key(x), key(sorted[0]));
        InsertNewestSorts(x, sorted[1..], key);
        var r := InsertNewest(x, sorted[1..], key);
        forall i | 0 <= i < |r|
          ensures Newer(key(sorted[0]), key(r[i]))
        {
          assert r[i] in r;
        }
      }
    }
  }

  lemma {:induction false} SortNewestSorts<T(!new)>(xs: seq<T>, key: T -> Key)
    requires DistinctKeys(xs, key)
    ensures Descending(SortNewest(xs, key), key)
    ensures forall y :: y in SortNewest(xs, key) <==> y in xs
  {
    if |xs| > 0 {
      SortNewestSorts(xs[1..], key);
      var r := SortNewest(xs[1..], key);
      forall i | 0 <= i < |r|
        ensures key(r[i]) != key(xs[0])
      {
        assert r[i] in xs[1..];
      }
      InsertNewestSorts(xs[0], r, key);
      assert xs == [xs[0]] + xs[1..];
    }
  }

  /** Only one arrangement of the same elements is in newest-first order. */
  lemma {:induction false} DescendingUnique<T(!new)>(a: seq<T>, b: seq<T>, key: T -> Key)
    requires Descending(a, key) && Descending(b, key)
    requires forall x :: x in a <==> x in b
    ensures a == b
    decreases |a|
  {
    FirstIsMember(a);
    FirstIsMember(b);
    if |a| > 0 {
      assert a[0] in b;
      var j :| 0 <= j < |b| && b[j] == a[0];
      assert b[0] in a;
      var i :| 0 <= i < |a| && a[i] == b[0];
      NewerIrreflexive(key(a[0]));
      if i > 0 && j > 0 {
        NewerTransitive(key(a[0]), key(b[0]), key(a[0]));
      }
      TailMembers(a, key);
      TailMembers(b, key);
      DescendingUnique(a[1..], b[1..], key);
      assert a == [a[0]] + a[1..] && b == [b[0]] + b[1..];
    }
  }

  lemma TailMembers<T(!new)>(a: seq<T>, key: T -> Key)
    requires Descending(a, key) && |a| > 0
    ensures Descending(a[1..], key)
    ensures forall x :: x in a[1..] <==> x in a && x != a[0]
  {
    NewerIrreflexive(key(a[0]));
    assert a == [a[0]] + a[1..];
  }

  lemma DescendingPart<T(!new)>(a: seq<T>, n: nat, key: T -> Key)
    requires Descending(a, key)
    ensures Descending(Take(a, n), key)
  {
  }

  // --------------------------------------------------------- the exact answer

  predicate Visible(logs: Logs, p: Principal, sid: string)
    requires StoreOk(logs)
  {
    sid in logs && p.Sees(logs[sid][0].accountId)
  }

  /** `subs` lists, each once, the folded visible submissions among `sids`. */
  predicate Collects(subs: seq<Submission>, logs: Logs, p: Principal, sids: set<string>)
    requires StoreOk(logs)
  {
    && (forall i :: 0 <= i < |subs| ==>
          && subs[i].submissionId in sids && Visible(logs, p, subs[i].submissionId)
          && subs[i] == StateOf(logs[subs[i].submissionId]))
    && (forall sid <- sids :: Visible(logs, p, sid) ==> StateOf(logs[sid]) in subs)
    && (forall i, j :: 0 <= i < j < |subs| ==> subs[i].submissionId != subs[j].submissionId)
  }

  lemma CollectOne(subs: seq<Submission>, logs: Logs, p: Principal, sids: set<string>, sid: string)
    requires StoreOk(logs) && Collects(subs, logs, p, sids) && sid !in sids && Visible(logs, p, sid)
    ensures Collects(subs + [StateOf(logs[sid])], logs, p, sids + {sid})
  {
    FoldedProvenance(logs[sid]);
    var r := subs + [StateOf(logs[sid])];
    assert r[|subs|] == StateOf(logs[sid]);
    forall s <- sids | Visible(logs, p, s)
      ensures StateOf(logs[s]) in r
    {
      assert StateOf(logs[s]) in subs;
    }
  }

  lemma CollectNothing(logs: Logs, p: Principal)
    requires StoreOk(logs)
    ensures Collects([], logs, p, {})
  {
  }

  lemma CollectNone(subs: seq<Submission>, logs: Logs, p: Principal, sids: set<string>, sid: string)
    requires StoreOk(logs) && Collects(subs, logs, p, sids) && !Visible(logs, p, sid)
    ensures Collects(subs, logs, p, sids + {sid})
  {
  }

  /** All submissions the caller may see, newest first. */
  ghost predicate IsNewestFirst(all: seq<Submission>, logs: Logs, p: Principal)
    requires StoreOk(logs)
  {
    Collects(all, logs, p, logs.Keys) && Descending(all, SUBMISSION_KEY)
  }

  lemma {:induction false} CollectionExists(logs: Logs, p: Principal, sids: set<string>) returns (subs: seq<Submission>)
    requires StoreOk(logs) && sids <= logs.Keys
    ensures Collects(subs, logs, p, sids)
  {
    if sids == {} {
      subs := [];
    } else {
      var sid :| sid in sids;
      subs := CollectionExists(logs, p, sids - {sid});
      assert sids - {sid} + {sid} == sids;
      if Visible(logs, p, sid) {
        CollectOne(subs, logs, p, sids - {sid}, sid);
        subs := subs + [StateOf(logs[sid])];
      }
    }
  }

  lemma SortedIsNewestFirst(subs: seq<Submission>, logs: Logs, p: Principal)
    requires StoreOk(logs) && Collects(subs, logs, p, logs.Keys)
    ensures IsNewestFirst(SortNewest(subs, SUBMISSION_KEY), logs, p)
  {
    SortNewestSorts(subs, SUBMISSION_KEY);
    var r := SortNewest(subs, SUBMISSION_KEY);
    forall i | 0 <= i < |r|
      ensures Visible(logs, p, r[i].submissionId) && r[i] == StateOf(logs[r[i].submissionId])
    {
      assert r[i] in subs;
    }
    forall i, j | 0 <= i < j < |r|
      ensures r[i].submissionId != r[j].submissionId
    {
      if r[i].submissionId == r[j].submissionId {
        NewerIrreflexive(SUBMISSION_KEY(r[i]));
      }
    }
  }

  ghost function NewestFirst(logs: Logs, p: Principal): (all: seq<Submission>)
    requires StoreOk(logs)
    ensures IsNewestFirst(all, logs, p)
  {
    assert exists all :: IsNewestFirst(all, logs, p) by {
      var subs := CollectionExists(logs, p, logs.Keys);
      SortedIsNewestFirst(subs, logs, p);
    }
    var all :| IsNewestFirst(all, logs, p);
    all
  }

  lemma NewestFirstUnique(all: seq<Submission>, logs: Logs, p: Principal)
    requires StoreOk(logs) && IsNewestFirst(all, logs, p)
    ensures all == NewestFirst(logs, p)
  {
    var other := NewestFirst(logs, p);
    forall s
      ensures s in all <==> s in other
    {
      if s in all {
        assert StateOf(logs[s.submissionId]) in other;
      }
      if s in other {
        assert StateOf(logs[s.submissionId]) in all;
      }
    }
    DescendingUnique(all, other, SUBMISSION_KEY);
  }

  function WithStatus(subs: seq<Submission>, status: Option<Status>): seq<Submission> {
    if |subs| == 0 then []
    else
      var last := subs[|subs| - 1];
      WithStatus(subs[..|subs| - 1], status) + if status.None? || last.status == status.value then [last] else []
  }

  /** The first `limit` of all visible submissions with that status, newest first. */
  ghost function ExactListing(logs: Logs, p: Principal, status: Option<Status>, limit: nat): seq<Submission>
    requires StoreOk(logs)
  {
    Take(WithStatus(NewestFirst(logs, p), status), limit)
  }

  lemma {:induction false} WithStatusMembers(subs: seq<Submission>, status: Option<Status>)
    ensures forall s :: s in WithStatus(subs, status) <==> s in subs && (status.None? || s.status == status.value)
    ensures |WithStatus(subs, status)| <= |subs| && (status.None? ==> WithStatus(subs, status) == subs)
  {
    if |subs| > 0 {
      WithStatusMembers(subs[..|subs| - 1], status);
      assert subs == subs[..|subs| - 1] + [subs[|subs| - 1]];
    }
  }

  lemma {:induction false} WithStatusDescends(subs: seq<Submission>, status: Option<Status>)
    requires Descending(subs, SUBMISSION_KEY)
    ensures Descending(WithStatus(subs, status), SUBMISSION_KEY)
  {
    if |subs| > 0 {
      var init, last := subs[..|subs| - 1], subs[|subs| - 1];
      WithStatusDescends(init, status);
      var r := WithStatus(init, status);
      forall i | 0 <= i < |r|
        ensures Newer(SUBMISSION_KEY(r[i]), SUBMISSION_KEY(last))
      {
        WithStatusMembers(init, status);
        assert r[i] in init;
      }
    }
  }

  lemma {:induction false} WithStatusDistinct(subs: seq<Submission>, status: Option<Status>)
    requires forall i, j :: 0 <= i < j < |subs| ==> subs[i].submissionId != subs[j].submissionId
    ensures DistinctKeys(WithStatus(subs, status), SUBMISSION_KEY)
  {
    if |subs| > 0 {
      var init, last := subs[..|subs| - 1], subs[|subs| - 1];
      WithStatusDistinct(init, status);
      var r := WithStatus(init, status);
      forall i | 0 <= i < |r|
        ensures SUBMISSION_KEY(r[i]) != SUBMISSION_KEY(last)
      {
        WithStatusMembers(init, status);
        assert r[i] in init;
      }
    }
  }

  /** Filtering an arbitrary collection and then sorting it is filtering the newest-first list. */
  lemma SortedCollection(subs: seq<Submission>, logs: Logs, p: Principal, status: Option<Status>)
    requires StoreOk(logs) && Collects(subs, logs, p, logs.Keys)
    ensures SortNewest(WithStatus(subs, status), SUBMISSION_KEY) == WithStatus(NewestFirst(logs, p), status)
  {
    var all := NewestFirst(logs, p);
    SameMembers(subs, all, logs, p);
    SortedFilter(subs, all, status);
  }

  lemma SameMembers(a: seq<Submission>, b: seq<Submission>, logs: Logs, p: Principal)
    requires StoreOk(logs) && Collects(a, logs, p, logs.Keys) && Collects(b, logs, p, logs.Keys)
    ensures forall s :: s in a <==> s in b
  {
    forall s
      ensures s in a <==> s in b
    {
      if s in a {
        assert StateOf(logs[s.submissionId]) in b;
      }
      if s in b {
        assert StateOf(logs[s.submissionId]) in a;
      }
    }
  }

  /** Sorting what passes the filter gives what passes the filter of the sorted list. */
  lemma SortedFilter(subs: seq<Submission>, all: seq<Submission>, status: Option<Status>)
    requires forall i, j :: 0 <= i < j < |subs| ==> subs[i].submissionId != subs[j].submissionId
    requires Descending(all, SUBMISSION_KEY) && forall s :: s in subs <==> s in all
    ensures SortNewest(WithStatus(subs, status), SUBMISSION_KEY) == WithStatus(all, status)
  {
    WithStatusDistinct(subs, status);
    WithStatusMembers(subs, status);
    WithStatusMembers(all, status);
    WithStatusDescends(all, status);
    SortNewestSorts(WithStatus(subs, status), SUBMISSION_KEY);
    DescendingUnique(SortNewest(WithStatus(subs, status), SUBMISSION_KEY), WithStatus(all, status), SUBMISSION_KEY);
  }

  // ------------------------------------------------ the limit below the fold

  const MAX_CANDIDATES := 5_000

  /** How many submissions the SQL repository folds for one listing. */
  function Candidates(status: Option<Status>, limit: nat): nat {
    if status.None? then limit else if limit * 10 < MAX_CANDIDATES then limit * 10 else MAX_CANDIDATES
  }

  /** The listing computed from the newest candidates only. */
  ghost function PushedListing(logs: Logs, p: Principal, status: Option<Status>, limit: nat): seq<Submission>
    requires StoreOk(logs)
  {
    Take(WithStatus(Take(NewestFirst(logs, p), Candidates(status, limit)), status), limit)
  }

  lemma {:induction false} WithStatusPrefix(all: seq<Submission>, c: nat, status: Option<Status>)
    requires c <= |all|
    ensures WithStatus(all[..c], status) <= WithStatus(all, status)
    ensures WithStatus(all[..c], status) == WithStatus(all, status) <==>
            forall i :: c <= i < |all| ==> status.Some? && all[i].status != status.value
    decreases |all|
  {
    if c == |all| {
      assert all[..c] == all;
    } else {
      var init := all[..|all| - 1];
      assert init[..c] == all[..c];
      WithStatusPrefix(init, c, status);
    }
  }

  /** Without a status filter the pushed limit loses nothing. */
  lemma UnfilteredListingExact(logs: Logs, p: Principal, limit: nat)
    requires StoreOk(logs)
    ensures PushedListing(logs, p, None, limit) == ExactListing(logs, p, None, limit)
  {
    var all := NewestFirst(logs, p);
    WithStatusMembers(all, None);
    WithStatusMembers(Take(all, limit), None);
  }

  /**
   A filtered listing is always a prefix of the exact one. It is the exact one if it is full or the visible submissions
   fit in the candidates, and precisely when it is full or no visible submission past the candidates has the status.
   */
  lemma PushedListingExactIff(logs: Logs, p: Principal, status: Option<Status>, limit: nat)
    requires StoreOk(logs)
    ensures var all, c := NewestFirst(logs, p), Candidates(status, limit);
            var pushed, exact := PushedListing(logs, p, status, limit), ExactListing(logs, p, status, limit);
            && pushed <= exact
            && (|pushed| == limit || |all| <= c ==> pushed == exact)
            && (status.Some? ==>
                  (pushed == exact <==> |pushed| == limit || forall i :: c <= i < |all| ==> all[i].status != status.value))
  {
    hide NewestFirst, WithStatus, StoreOk;
    var all, c := NewestFirst(logs, p), Candidates(status, limit);
    if c <= |all| {
      WithStatusPrefix(all, c, status);
    }
  }

  /** Listings of either store go from the latest submission to the earliest, and by id where the time is the same. */
  lemma ListedInOrder(
      b: Backend, logs: Logs, p: Principal, status: Option<Status>, limit: nat, listed: seq<Submission>, i: nat, j: nat)
    requires StoreOk(logs) && listed == ListingOf(b, logs, p, status, limit) && i < j < |listed|
    ensures listed[i].submittedAt >= listed[j].submittedAt
    ensures listed[i].submittedAt == listed[j].submittedAt ==> StrLess(listed[j].submissionId, listed[i].submissionId)
    ensures |listed| <= limit
  {
    hide WithStatus, NewestFirst, StateOf, StrLess;
    var all := NewestFirst(logs, p);
    var front := if b.Memory? then all else Take(all, Candidates(status, limit));
    assert Descending(all, SUBMISSION_KEY);
    assert Descending(front, SUBMISSION_KEY);
    WithStatusDescends(front, status);
    assert Newer(SUBMISSION_KEY(listed[i]), SUBMISSION_KEY(listed[j]));
  }

  // ------------------------------------------ when a listing shows a submission

  /** The repository behind the port: the in-memory one folds everything, the SQL one its newest candidates. */
  datatype Backend = Memory | Sql

  /** What `list_submissions` answers. */
  ghost function ListingOf(b: Backend, logs: Logs, p: Principal, status: Option<Status>, limit: nat): seq<Submission>
    requires StoreOk(logs)
  {
    match b
    case Memory => ExactListing(logs, p, status, limit)
    case Sql => PushedListing(logs, p, status, limit)
  }

  function KeyOf(logs: Logs, sid: string): Key
    requires StoreOk(logs) && sid in logs
  {
    Key(logs[sid][0].occurredAt, sid)
  }

  /** The submissions that come before this one in every listing. */
  function NewerIds(logs: Logs, sid: string): set<string>
    requires StoreOk(logs) && sid in logs
  {
    set s | s in logs && Newer(KeyOf(logs, s), KeyOf(logs, sid))
  }

  /** Those of them with the same status. */
  function RivalIds(logs: Logs, sid: string): set<string>
    requires StoreOk(logs) && sid in logs
  {
    set s | s in NewerIds(logs, sid) && StateOf(logs[s]).status == StateOf(logs[sid]).status
  }

  /** A listing of its status, with this limit, gets as far as this submission. */
  predicate InSight(b: Backend, logs: Logs, sid: string, limit: nat)
    requires StoreOk(logs) && sid in logs
  {
    && |RivalIds(logs, sid)| < limit
    && (b.Sql? ==> |NewerIds(logs, sid)| < 10 * limit && |NewerIds(logs, sid)| < 5000)
  }

  function IdsOf(subs: seq<Submission>): set<string> {
    set i | 0 <= i < |subs| :: subs[i].submissionId
  }

  predicate DistinctIds(subs: seq<Submission>) {
    forall i, j :: 0 <= i < j < |subs| ==> subs[i].submissionId != subs[j].submissionId
  }

  lemma {:induction false} IdsCount(subs: seq<Submission>)
    requires DistinctIds(subs)
    ensures |IdsOf(subs)| == |subs|
  {
    if |subs| > 0 {
      var n := |subs| - 1;
      IdsCount(subs[..n]);
      assert IdsOf(subs) == IdsOf(subs[..n]) + {subs[n].submissionId};
    }
  }

  /** Newer submissions are those listed before. */
  lemma FrontIds(logs: Logs, p: Principal, i: nat)
    requires StoreOk(logs) && !p.IsScoped() && i < |NewestFirst(logs, p)|
    ensures var all := NewestFirst(logs, p);
            all[i].submissionId in logs && IdsOf(all[..i]) == NewerIds(logs, all[i].submissionId)
  {
    hide StateOf, NewestFirst;
    var all := NewestFirst(logs, p);
    forall j | 0 <= j < |all|
      ensures all[j].submissionId in logs && KeyOf(logs, all[j].submissionId) == SUBMISSION_KEY(all[j])
    {
      FoldedProvenance(logs[all[j].submissionId]);
    }
    var sid := all[i].submissionId;
    forall s
      ensures s in IdsOf(all[..i]) <==> s in NewerIds(logs, sid)
    {
      if s in NewerIds(logs, sid) {
        ListedAt(logs, p, s);
        var j :| 0 <= j < |all| && all[j].submissionId == s;
        NewerIrreflexive(KeyOf(logs, sid));
        if i < j {
          NewerTransitive(KeyOf(logs, sid), KeyOf(logs, s), KeyOf(logs, sid));
        }
        assert all[..i][j].submissionId == s;
      }
    }
  }

  lemma ListedAt(logs: Logs, p: Principal, sid: string)
    requires StoreOk(logs) && !p.IsScoped() && sid in logs
    ensures exists j :: 0 <= j < |NewestFirst(logs, p)| && NewestFirst(logs, p)[j].submissionId == sid
    ensures StateOf(logs[sid]) in NewestFirst(logs, p) && StateOf(logs[sid]).submissionId == sid
  {
    FoldedProvenance(logs[sid]);
    var all := NewestFirst(logs, p);
    assert Visible(logs, p, sid);
    var j :| 0 <= j < |all| && all[j] == StateOf(logs[sid]);
  }

  lemma {:induction false} WithStatusDistinctIds(subs: seq<Submission>, status: Option<Status>)
    requires DistinctIds(subs)
    ensures DistinctIds(WithStatus(subs, status))
  {
    if |subs| > 0 {
      var init := subs[..|subs| - 1];
      WithStatusDistinctIds(init, status);
      WithStatusMembers(init, status);
      var r := WithStatus(init, status);
      forall i | 0 <= i < |r|
        ensures r[i].submissionId != subs[|subs| - 1].submissionId
      {
        assert r[i] in init;
      }
    }
  }

  lemma RivalsCount(logs: Logs, p: Principal, i: nat)
    requires StoreOk(logs) && !p.IsScoped() && i < |NewestFirst(logs, p)|
    ensures var all := NewestFirst(logs, p);
            && all[i].submissionId in logs && |NewerIds(logs, all[i].submissionId)| == i
            && |RivalIds(logs, all[i].submissionId)| == |WithStatus(all[..i], Some(all[i].status))|
  {
    hide StateOf, NewestFirst, WithStatus, NewerIds, WellFormed;
    var all := NewestFirst(logs, p);
    var sid, front := all[i].submissionId, all[..i];
    FrontIds(logs, p, i);
    IdsCount(front);
    WithStatusMembers(front, Some(all[i].status));
    WithStatusDistinctIds(front, Some(all[i].status));
    IdsCount(WithStatus(front, Some(all[i].status)));
    RivalsListed(logs, p, i);
  }

  lemma RivalsListed(logs: Logs, p: Principal, i: nat)
    requires StoreOk(logs) && !p.IsScoped() && i < |NewestFirst(logs, p)|
    ensures var all := NewestFirst(logs, p);
            && all[i].submissionId in logs
            && IdsOf(WithStatus(all[..i], Some(all[i].status))) == RivalIds(logs, all[i].submissionId)
  {
    hide StateOf, NewestFirst, WithStatus, NewerIds, WellFormed;
    var all := NewestFirst(logs, p);
    var sid, front := all[i].submissionId, all[..i];
    FrontIds(logs, p, i);
    WithStatusMembers(front, Some(all[i].status));
    var rivals := WithStatus(front, Some(all[i].status));
    forall s
      ensures s in IdsOf(rivals) <==> s in RivalIds(logs, sid)
    {
      if s in IdsOf(rivals) {
        var k :| 0 <= k < |rivals| && rivals[k].submissionId == s;
        assert rivals[k] in front;
        var j :| 0 <= j < |front| && front[j] == rivals[k];
        assert s in IdsOf(front);
      }
      if s in RivalIds(logs, sid) {
        assert s in IdsOf(front);
        var j :| 0 <= j < |front| && front[j].submissionId == s;
        assert front[j] in front && front[j] in rivals;
        var k :| 0 <= k < |rivals| && rivals[k] == front[j];
      }
    }
  }

  /** Among the first `c` submissions, the one at `i` stands behind exactly its rivals. */
  lemma PlaceAmong(all: seq<Submission>, c: nat, i: nat, limit: nat)
    requires DistinctIds(all) && c <= |all| && i < |all|
    ensures var status := Some(all[i].status);
            all[i] in Take(WithStatus(all[..c], status), limit) <==> i < c && |WithStatus(all[..i], status)| < limit
  {
    hide WithStatus;
    var status := Some(all[i].status);
    var front := all[..c];
    var listed := WithStatus(front, status);
    WithStatusMembers(front, status);
    WithStatusDistinctIds(front, status);
    if i < c {
      WithStatusPrefix(front, i + 1, status);
      assert front[..i + 1] == all[..i + 1];
      var k := |WithStatus(all[..i], status)|;
      WithStatusLast(all, i);
      assert listed[k] == all[i];
    } else {
      forall j | 0 <= j < |listed|
        ensures listed[j] != all[i]
      {
        assert listed[j] in front;
      }
    }
  }

  lemma WithStatusLast(all: seq<Submission>, i: nat)
    requires i < |all|
    ensures WithStatus(all[..i + 1], Some(all[i].status)) == WithStatus(all[..i], Some(all[i].status)) + [all[i]]
  {
    assert all[..i + 1][..i] == all[..i];
  }

  lemma AmongCandidates(status: Status, limit: nat, i: nat)
    ensures i < Candidates(Some(status), limit) <==> i < 10 * limit && i < 5000
  {
  }

  /** A listing shows a submission exactly when it is in sight of it. */
  lemma ListedIff(b: Backend, logs: Logs, p: Principal, sid: string, limit: nat)
    requires StoreOk(logs) && !p.IsScoped() && sid in logs
    ensures StateOf(logs[sid]) in ListingOf(b, logs, p, Some(StateOf(logs[sid]).status), limit) <==> InSight(b, logs, sid, limit)
  {
    hide StateOf, NewestFirst, WithStatus, NewerIds, RivalIds, WellFormed;
    var all := NewestFirst(logs, p);
    ListedAt(logs, p, sid);
    var i :| 0 <= i < |all| && all[i] == StateOf(logs[sid]);
    RivalsCount(logs, p, i);
    var c := if b.Memory? then |all| else |Take(all, Candidates(Some(all[i].status), limit))|;
    AmongCandidates(all[i].status, limit, i);
    hide Candidates;
    PlaceAmong(all, c, i, limit);
    assert all[..|all|] == all;
  }

  /** A listing of all statuses shows a submission exactly when fewer than `limit` are newer. */
  lemma ListedUnfilteredIff(logs: Logs, p: Principal, sid: string, limit: nat)
    requires StoreOk(logs) && !p.IsScoped() && sid in logs
    ensures StateOf(logs[sid]) in ExactListing(logs, p, None, limit) <==> |NewerIds(logs, sid)| < limit
  {
    hide StateOf, NewestFirst, WithStatus, NewerIds, RivalIds, WellFormed;
    var all := NewestFirst(logs, p);
    ListedAt(logs, p, sid);
    var i :| 0 <= i < |all| && all[i] == StateOf(logs[sid]);
    RivalsCount(logs, p, i);
    WithStatusMembers(all, None);
    var listed := Take(all, limit);
    if i < limit {
      assert listed[i] == all[i];
    }
  }

  /** As logs grow, no submission ever moves forward in the listings. */
  lemma NewerIdsGrow(logs: Logs, logs': Logs, sid: string)
    requires StoreOk(logs) && StoreOk(logs') && Grows(logs, logs') && sid in logs
    ensures NewerIds(logs, sid) <= NewerIds(logs', sid) && |NewerIds(logs, sid)| <= |NewerIds(logs', sid)|
  {
    forall s <- logs
      ensures s in logs' && logs'[s][0] == logs[s][0]
    {
      assert logs[s] <= logs'[s];
    }
    SubsetSize(NewerIds(logs, sid), NewerIds(logs', sid));
  }

  // ----------------------------------------------------- a listing that misses

  function Named(i: nat): (sid: string)
    ensures |sid| == i
  {
    seq(i, _ => 'a')
  }

  /** A request submitted at time `i`; the oldest one has been validated since. */
  function LogAt(i: nat): seq<Event> {
    [Event(Named(i), "A", 1, "", Customer, i, Submitted(map[], []))] +
    if i == 0 then [Event(Named(i), "A", 2, "", Internal, 0, Validated)] else []
  }

  function Crowd(n: nat): (logs: Logs) {
    map i | 0 <= i < n :: Named(i) := LogAt(i)
  }

  lemma LogAtState(i: nat)
    ensures WellFormed(LogAt(i)) && LogAt(i)[0].submissionId == Named(i) && LogAt(i)[0].occurredAt == i
    ensures StateOf(LogAt(i)).status == if i == 0 then VALIDATED else SUBMITTED
  {
    if i == 0 {
      assert LogAt(i)[..1] == [LogAt(i)[0]];
    }
  }

  lemma {:induction false} NamesCount(n: nat)
    ensures |set i | 0 <= i < n :: Named(i)| == n
  {
    if n > 0 {
      NamesCount(n - 1);
      assert (set i | 0 <= i < n :: Named(i)) == (set i | 0 <= i < n - 1 :: Named(i)) + {Named(n - 1)};
    }
  }

  lemma CrowdOk(n: nat)
    ensures StoreOk(Crowd(n)) && |Crowd(n)| == n && Crowd(n).Keys == set i | 0 <= i < n :: Named(i)
    ensures forall i :: 0 <= i < n ==> Named(i) in Crowd(n) && Crowd(n)[Named(i)] == LogAt(i) && WellFormed(LogAt(i))
  {
    hide StateOf, WellFormed;
    forall i | 0 <= i < n
      ensures Named(i) in Crowd(n) && Crowd(n)[Named(i)] == LogAt(i)
      ensures WellFormed(LogAt(i)) && LogAt(i)[0].submissionId == Named(i)
    {
      LogAtState(i);
    }
    NamesCount(n);
    assert Crowd(n).Keys == set i | 0 <= i < n :: Named(i);
    assert |Crowd(n).Keys| == |Crowd(n)|;
  }

  /** The oldest of the crowd is its only validated request, behind all the others. */
  lemma LastOfCrowd(n: nat)
    requires n > 0
    ensures StoreOk(Crowd(n)) && Named(0) in Crowd(n)
    ensures |NewerIds(Crowd(n), Named(0))| == n - 1 && RivalIds(Crowd(n), Named(0)) == {}
    ensures forall sid <- Crowd(n) :: StateOf(Crowd(n)[sid]).status.VALIDATED? <==> sid == Named(0)
  {
    hide StateOf, WellFormed, LogAt, Crowd, Named;
    CrowdOk(n);
    var logs, keys := Crowd(n), Crowd(n).Keys;
    forall i | 0 <= i < n
      ensures KeyOf(logs, Named(i)) == Key(i, Named(i)) && StateOf(logs[Named(i)]).status == if i == 0 then VALIDATED else SUBMITTED
    {
      LogAtState(i);
    }
    NewerIrreflexive(KeyOf(logs, Named(0)));
    assert NewerIds(logs, Named(0)) == keys - {Named(0)};
    assert |keys| == |logs|;
  }

  /** So eleven requests are enough for a filtered listing to miss its only member. */
  lemma PushedListingMisses()
    ensures var logs := Crowd(11);
            && StoreOk(logs) && PushedListing(logs, SYSTEM, Some(VALIDATED), 1) == []
            && |ExactListing(logs, SYSTEM, Some(VALIDATED), 1)| == 1
  {
    hide StateOf, Crowd, WithStatus, NewestFirst, StoreOk, WellFormed, LogAt, Named, NewerIds, RivalIds;
    LastOfCrowd(11);
    var logs, sid := Crowd(11), Named(0);
    ListedIff(Memory, logs, SYSTEM, sid, 1);
    ListedIff(Sql, logs, SYSTEM, sid, 1);
    OnlyMember(logs, sid, 1);
  }

  lemma OnlyMember(logs: Logs, sid: string, limit: nat)
    requires StoreOk(logs) && sid in logs && forall s <- logs :: StateOf(logs[s]).status.VALIDATED? <==> s == sid
    requires StateOf(logs[sid]) !in PushedListing(logs, SYSTEM, Some(VALIDATED), limit)
    ensures PushedListing(logs, SYSTEM, Some(VALIDATED), limit) == []
  {
    hide StateOf, WithStatus, NewestFirst, WellFormed;
    var all := NewestFirst(logs, SYSTEM);
    var front := Take(all, Candidates(Some(VALIDATED), limit));
    WithStatusMembers(front, Some(VALIDATED));
    var pushed := PushedListing(logs, SYSTEM, Some(VALIDATED), limit);
    FirstIsMember(pushed);
    assert forall s <- pushed :: s in front && s.status.VALIDATED?;
  }

  /** The submissions a caller may see decide everything its reads return. */
  predicate AgreeFor(p: Principal, a: Logs, b: Logs)
    requires StoreOk(a) && StoreOk(b)
  {
    && (forall sid <- a :: Visible(a, p, sid) ==> sid in b && a[sid] == b[sid])
    && (forall sid <- b :: Visible(b, p, sid) ==> sid in a && a[sid] == b[sid])
  }

  /** Stores that agree on the caller's own logs answer every read alike, whatever else they hold. */
  lemma ReadsSeeOnlyOwnLogs(p: Principal, a: Logs, b: Logs, sid: string, status: Option<Status>, limit: nat)
    requires StoreOk(a) && StoreOk(b) && AgreeFor(p, a, b)
    ensures EventsAnswer(a, p, sid) == EventsAnswer(b, p, sid)
    ensures ExactListing(a, p, status, limit) == ExactListing(b, p, status, limit)
    ensures PushedListing(a, p, status, limit) == PushedListing(b, p, status, limit)
  {
    var all := NewestFirst(a, p);
    forall s <- b.Keys | Visible(b, p, s)
      ensures StateOf(b[s]) in all
    {
      assert Visible(a, p, s);
      assert StateOf(a[s]) in all;
    }
    assert Collects(all, b, p, b.Keys);
    NewestFirstUnique(all, b, p);
  }
}
