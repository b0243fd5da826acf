/**
 The executors that send the insert-if-absent statement to a warehouse, and send it again when it fails. A statement may
 commit and still report failure, and other processes insert between any two executions.
 */
module Executors {
  import opened Prelude
  import opened Events

  /** What an exception's text says; the kinds are independent. */
  datatype Fault = Fault(session: bool, concurrent: bool, operational: bool)

  datatype Fate = Completes | FailsBefore(fault: Fault) | FailsAfter(fault: Fault)

  /** One execution: what other processes insert before it, and how it ends. */
  datatype Execution = Execution(others: seq<Event>, fate: Fate)

  type Script = nat -> Execution

  // ------------------------------------------------------------ the statement

  /** The rows need not be unique by themselves: Delta enforces no key. */
  predicate Occupied(rows: seq<Event>, sid: string, seqNo: int) {
    exists i :: 0 <= i < |rows| && rows[i].submissionId == sid && rows[i].seqNo == seqNo
  }

  function InsertIfAbsent(rows: seq<Event>, e: Event): (r: seq<Event>)
    ensures rows <= r
  {
    if Occupied(rows, e.submissionId, e.seqNo) then rows else rows + [e]
  }

  function InsertAll(rows: seq<Event>, es: seq<Event>): (r: seq<Event>)
    ensures rows <= r
  {
    if |es| == 0 then rows else InsertIfAbsent(InsertAll(rows, es[..|es| - 1]), es[|es| - 1])
  }

  /** The rows after one execution. */
  function RowsOnce(rows: seq<Event>, x: Execution, e: Event): (r: seq<Event>)
    ensures rows <= r
  {
    var seen := InsertAll(rows, x.others);
    if x.fate.FailsBefore? then seen else InsertIfAbsent(seen, e)
  }

  /** What one execution answers: the number of inserted rows, or its fault. */
  function AnswerOnce(rows: seq<Event>, x: Execution, e: Event): Result<int, Fault> {
    match x.fate
    case Completes => Ok(if Occupied(InsertAll(rows, x.others), e.submissionId, e.seqNo) then 0 else 1)
    case FailsBefore(fault) => Err(fault)
    case FailsAfter(fault) => Err(fault)
  }

  /** The rows after the executions numbered `n`, ..., `n + k - 1` of the script. */
  function RowsAfter(rows: seq<Event>, script: Script, n: nat, k: nat, e: Event): (r: seq<Event>)
    ensures rows <= r
  {
    if k == 0 then rows else RowsOnce(RowsAfter(rows, script, n, k - 1, e), script(n + k - 1), e)
  }

  /** The answer of the last of `k` executions. */
  function LastAnswer(rows: seq<Event>, script: Script, n: nat, k: nat, e: Event): Result<int, Fault>
    requires k > 0
  {
    AnswerOnce(RowsAfter(rows, script, n, k - 1, e), script(n + k - 1), e)
  }

  /** All of the first `k` executions fail. */
  predicate AllFail(script: Script, n: nat, k: nat) {
    forall i :: n <= i < n + k ==> !script(i).fate.Completes?
  }

  /** The warehouse as the executors see it. */
  class Warehouse {
    const script: Script
    var rows: seq<Event>
    var executions: nat

    constructor (script: Script, rows: seq<Event>)
      ensures this.script == script && this.rows == rows && executions == 0
    {
      this.script, this.rows, executions := script, rows, 0;
    }

    method Run(e: Event) returns (r: Result<int, Fault>)
      modifies this
      ensures executions == old(executions) + 1
      ensures rows == RowsAfter(old(rows), script, old(executions), 1, e)
      ensures r == LastAnswer(old(rows), script, old(executions), 1, e)
    {
      var x := script(executions);
      executions := executions + 1;
      for i := 0 to |x.others|
        invariant executions == old(executions) + 1 && rows == InsertAll(old(rows), x.others[..i])
      {
        assert x.others[..i + 1][..i] == x.others[..i];
        rows := InsertIfAbsent(rows, x.others[i]);
      }
      assert x.others[..|x.others|] == x.others;
      assert RowsAfter(old(rows), script, old(executions), 0, e) == old(rows);
      match x.fate {
        case Completes =>
          r := Ok(if Occupied(rows, e.submissionId, e.seqNo) then 0 else 1);
          rows := InsertIfAbsent(rows, e);
        case FailsBefore(fault) =>
          r := Err(fault);
        case FailsAfter(fault) =>
          rows := InsertIfAbsent(rows, e);
          r := Err(fault);
      }
    }
  }

  /** `k` executions happened, all but the last failed, and the last one's answer is `r`. */
  ghost predicate Executed(
      before: seq<Event>, script: Script, n: nat, k: nat, e: Event, after: seq<Event>, r: Result<int, Fault>)
  {
    && k > 0 && AllFail(script, n, k - 1)
    && after == RowsAfter(before, script, n, k, e) && r == LastAnswer(before, script, n, k, e)
  }

  lemma {:induction false} RowsAfterMore(rows: seq<Event>, script: Script, n: nat, k: nat, j: nat, e: Event)
    ensures RowsAfter(RowsAfter(rows, script, n, k, e), script, n + k, j, e) == RowsAfter(rows, script, n, k + j, e)
  {
    hide RowsOnce;
    if j > 0 {
      RowsAfterMore(rows, script, n, k, j - 1, e);
      assert n + (k + j) - 1 == n + k + j - 1;
    }
  }

  /** Failing executions followed by others are one longer series. */
  lemma ExecutedMore(
      rows: seq<Event>, script: Script, n: nat, k: nat, j: nat, e: Event, middle: seq<Event>, fault: Fault, after: seq<Event>,
      r: Result<int, Fault>)
    requires Executed(rows, script, n, k, e, middle, Err(fault)) && Executed(middle, script, n + k, j, e, after, r)
    ensures Executed(rows, script, n, k + j, e, after, r)
  {
    hide RowsAfter, InsertAll, Occupied;
    assert !script(n + k - 1).fate.Completes?;
    hide AnswerOnce;
    RowsAfterMore(rows, script, n, k, j, e);
    RowsAfterMore(rows, script, n, k, j - 1, e);
    assert n + k + j - 1 == n + (k + j) - 1;
  }

  // ------------------------------------------------------------ Delta executor

  const MAX_ATTEMPTS := 3

  class DeltaExecutor {
    const warehouse: Warehouse
    var connected: bool

    constructor (warehouse: Warehouse)
      ensures this.warehouse == warehouse && !connected
    {
      this.warehouse, connected := warehouse, false;
    }

    method ExecuteOnce(e: Event) returns (r: Result<int, Fault>)
      modifies this, warehouse
      ensures connected && warehouse.executions == old(warehouse.executions) + 1
      ensures Executed(old(warehouse.rows), warehouse.script, old(warehouse.executions), 1, e, warehouse.rows, r)
    {
      connected := true;
      r := warehouse.Run(e);
    }

    /** Once more, on a fresh connection, after a session error. */
    method WithSessionRetry(e: Event) returns (r: Result<int, Fault>)
      modifies this, warehouse
      ensures 1 <= warehouse.executions - old(warehouse.executions) <= 2
      ensures Executed(
                old(warehouse.rows), warehouse.script, old(warehouse.executions), warehouse.executions - old(warehouse.executions), e,
                warehouse.rows, r)
      ensures warehouse.executions - old(warehouse.executions) == 2 <==>
                var first := LastAnswer(old(warehouse.rows), warehouse.script, old(warehouse.executions), 1, e);
                first.Err? && first.error.session
    {
      r := ExecuteOnce(e);
      if r.Ok? || !r.error.session {
        return;
      }
      ghost var fault, middle := r.error, warehouse.rows;
      connected := false;
      r := ExecuteOnce(e);
      ExecutedMore(
        old(warehouse.rows), warehouse.script, old(warehouse.executions), 1, 1, e, middle, fault, warehouse.rows, r);
    }

    /** At most three attempts while the fault is a concurrent modification. */
    method Execute(e: Event) returns (r: Result<int, Fault>)
      modifies this, warehouse
      ensures 1 <= warehouse.executions - old(warehouse.executions) <= 2 * MAX_ATTEMPTS
      ensures Executed(
                old(warehouse.rows), warehouse.script, old(warehouse.executions), warehouse.executions - old(warehouse.executions), e,
                warehouse.rows, r)
      ensures r.Err? && r.error.concurrent ==> warehouse.executions - old(warehouse.executions) >= MAX_ATTEMPTS
    {
      hide Executed;
      ghost var rows, n := warehouse.rows, warehouse.executions;
      var attempt := 1;
      r := WithSessionRetry(e);
      while r.Err? && r.error.concurrent && attempt < MAX_ATTEMPTS
        invariant 1 <= attempt <= MAX_ATTEMPTS && attempt <= warehouse.executions - n <= 2 * attempt
        invariant Executed(rows, warehouse.script, n, warehouse.executions - n, e, warehouse.rows, r)
        decreases MAX_ATTEMPTS - attempt
      {
        ghost var fault, middle, k := r.error, warehouse.rows, warehouse.executions - n;
        attempt := attempt + 1;
        r := WithSessionRetry(e);
        ExecutedMore(rows, warehouse.script, n, k, warehouse.executions - n - k, e, middle, fault, warehouse.rows, r);
      }
    }
  }

  // --------------------------------------------------------- Lakebase executor

  class LakebaseExecutor {
    const warehouse: Warehouse
    var connected: bool

    constructor (warehouse: Warehouse)
      ensures this.warehouse == warehouse && !connected
    {
      this.warehouse, connected := warehouse, false;
    }

    /** Twice at most, the second time on a fresh connection after an operational error. */
    method Execute(e: Event) returns (r: Result<int, Fault>)
      modifies this, warehouse
      ensures 1 <= warehouse.executions - old(warehouse.executions) <= 2
      ensures Executed(
                old(warehouse.rows), warehouse.script, old(warehouse.executions), warehouse.executions - old(warehouse.executions), e,
                warehouse.rows, r)
      ensures warehouse.executions - old(warehouse.executions) == 2 <==>
                var first := LastAnswer(old(warehouse.rows), warehouse.script, old(warehouse.executions), 1, e);
                first.Err? && first.error.operational
      ensures r.Err? && r.error.operational ==> warehouse.executions - old(warehouse.executions) == 2
    {
      connected := true;
      r := warehouse.Run(e);
      if r.Err? && r.error.operational {
        ghost var fault, middle := r.error, warehouse.rows;
        connected := false;
        connected := true;
        r := warehouse.Run(e);
        ExecutedMore(
          old(warehouse.rows), warehouse.script, old(warehouse.executions), 1, 1, e, middle, fault, warehouse.rows, r);
      }
    }
  }

  // ------------------------------------------------------------- what is kept

  predicate KeysUnique(rows: seq<Event>) {
    forall i, j :: 0 <= i < j < |rows| ==> !(rows[i].submissionId == rows[j].submissionId && rows[i].seqNo == rows[j].seqNo)
  }

  lemma InsertKeepsUnique(rows: seq<Event>, e: Event)
    requires KeysUnique(rows)
    ensures KeysUnique(InsertIfAbsent(rows, e)) && Occupied(InsertIfAbsent(rows, e), e.submissionId, e.seqNo)
  {
    var r := InsertIfAbsent(rows, e);
    assert |r| > |rows| ==> r[|rows|] == e;
  }

  lemma {:induction false} InsertAllKeepsUnique(rows: seq<Event>, es: seq<Event>)
    requires KeysUnique(rows)
    ensures KeysUnique(InsertAll(rows, es))
  {
    if |es| > 0 {
      InsertAllKeepsUnique(rows, es[..|es| - 1]);
      InsertKeepsUnique(InsertAll(rows, es[..|es| - 1]), es[|es| - 1]);
    }
  }

  /** However often the statement is executed, there is at most one row per submission and sequence number. */
  lemma {:induction false} RetriesKeepUnique(rows: seq<Event>, script: Script, n: nat, k: nat, e: Event)
    requires KeysUnique(rows)
    ensures KeysUnique(RowsAfter(rows, script, n, k, e))
  {
    if k > 0 {
      RetriesKeepUnique(rows, script, n, k - 1, e);
      var before, x := RowsAfter(rows, script, n, k - 1, e), script(n + k - 1);
      InsertAllKeepsUnique(before, x.others);
      InsertKeepsUnique(InsertAll(before, x.others), e);
    }
  }

  /** 1 is answered only if the event is in the table, 0 only if its place is taken. */
  lemma AnswersAreTrue(
      rows: seq<Event>, script: Script, n: nat, k: nat, e: Event, after: seq<Event>, r: Result<int, Fault>)
    requires Executed(rows, script, n, k, e, after, r) && KeysUnique(rows)
    ensures r.Ok? ==> r.value == 0 || r.value == 1
    ensures r == Ok(1) ==> e in after
    ensures r.Ok? ==> Occupied(after, e.submissionId, e.seqNo)
  {
    RetriesKeepUnique(rows, script, n, k - 1, e);
    var before, x := RowsAfter(rows, script, n, k - 1, e), script(n + k - 1);
    InsertAllKeepsUnique(before, x.others);
    InsertKeepsUnique(InsertAll(before, x.others), e);
  }

  /** Nobody else inserts this very event. */
  predicate OnlyOurs(rows: seq<Event>, script: Script, n: nat, k: nat, e: Event) {
    e !in rows && forall i :: n <= i < n + k ==> e !in script(i).others
  }

  lemma {:induction false} InsertAllMembers(rows: seq<Event>, es: seq<Event>, e: Event)
    requires e !in rows && e !in es
    ensures e !in InsertAll(rows, es)
  {
    if |es| > 0 {
      assert es == es[..|es| - 1] + [es[|es| - 1]];
      InsertAllMembers(rows, es[..|es| - 1], e);
    }
  }

  /** Execution number `j` inserts our event and fails all the same. */
  predicate CommitsUnseen(rows: seq<Event>, script: Script, n: nat, j: nat, e: Event)
    requires n <= j
  {
    && script(j).fate.FailsAfter?
    && !Occupied(InsertAll(RowsAfter(rows, script, n, j - n, e), script(j).others), e.submissionId, e.seqNo)
  }

  /** One of the executions before the last commits unseen. */
  predicate LosesAnswer(rows: seq<Event>, script: Script, n: nat, k: nat, e: Event) {
    exists j :: n <= j < n + k - 1 && CommitsUnseen(rows, script, n, j, e)
  }

  /** Executions of which none completes or commits unseen have inserted nothing of ours. */
  lemma {:induction false} NothingInserted(rows: seq<Event>, script: Script, n: nat, k: nat, e: Event)
    requires OnlyOurs(rows, script, n, k, e) && AllFail(script, n, k)
    requires forall j :: n <= j < n + k ==> !CommitsUnseen(rows, script, n, j, e)
    ensures e !in RowsAfter(rows, script, n, k, e)
  {
    if k > 0 {
      NothingInserted(rows, script, n, k - 1, e);
      InsertAllMembers(RowsAfter(rows, script, n, k - 1, e), script(n + k - 1).others, e);
      assert !CommitsUnseen(rows, script, n, n + k - 1, e);
    }
  }

  /** Rows once inserted stay. */
  lemma {:induction false} RowsStay(rows: seq<Event>, script: Script, n: nat, i: nat, k: nat, e: Event)
    requires i <= k
    ensures RowsAfter(rows, script, n, i, e) <= RowsAfter(rows, script, n, k, e)
  {
    if i < k {
      RowsStay(rows, script, n, i, k - 1, e);
    }
  }

  /** An event whose insert committed unseen is in the table, and its caller is told 0: that it lost the race. */
  lemma LostAnswer(
      rows: seq<Event>, script: Script, n: nat, k: nat, e: Event, after: seq<Event>, r: Result<int, Fault>)
    requires Executed(rows, script, n, k, e, after, r) && r.Ok? && LosesAnswer(rows, script, n, k, e)
    ensures r == Ok(0) && e in after
  {
    hide RowsAfter;
    var j :| n <= j < n + k - 1 && CommitsUnseen(rows, script, n, j, e);
    var i := j - n;
    CommittedRow(rows, script, n, i, e);
    RowsStay(rows, script, n, i + 1, k - 1, e);
    RowsStay(rows, script, n, k - 1, k, e);
    var before := RowsAfter(rows, script, n, k - 1, e);
    var at :| 0 <= at < |RowsAfter(rows, script, n, i + 1, e)| && RowsAfter(rows, script, n, i + 1, e)[at] == e;
    var seen := InsertAll(before, script(n + k - 1).others);
    assert before[at] == e && seen[at] == e && after[at] == e;
  }

  lemma CommittedRow(rows: seq<Event>, script: Script, n: nat, i: nat, e: Event)
    requires CommitsUnseen(rows, script, n, n + i, e)
    ensures e in RowsAfter(rows, script, n, i + 1, e)
  {
    var seen := InsertAll(RowsAfter(rows, script, n, i, e), script(n + i).others);
    assert RowsAfter(rows, script, n, i + 1, e) == seen + [e];
    assert (seen + [e])[|seen|] == e;
  }

  /** The answer tells whether the event went in exactly when no execution before the last commits unseen. */
  lemma AnswerIsExactIff(
      rows: seq<Event>, script: Script, n: nat, k: nat, e: Event, after: seq<Event>, r: Result<int, Fault>)
    requires Executed(rows, script, n, k, e, after, r) && KeysUnique(rows) && OnlyOurs(rows, script, n, k, e) && r.Ok?
    ensures (r == Ok(1) <==> e in after) <==> !LosesAnswer(rows, script, n, k, e)
  {
    hide CommitsUnseen;
    AnswersAreTrue(rows, script, n, k, e, after, r);
    if LosesAnswer(rows, script, n, k, e) {
      LostAnswer(rows, script, n, k, e, after, r);
    } else {
      NothingInserted(rows, script, n, k - 1, e);
      InsertAllMembers(RowsAfter(rows, script, n, k - 1, e), script(n + k - 1).others, e);
    }
  }

  /** An event goes in with its caller not told so exactly when some execution, the last included, commits unseen. */
  lemma CommitsUntoldIff(
      rows: seq<Event>, script: Script, n: nat, k: nat, e: Event, after: seq<Event>, r: Result<int, Fault>)
    requires Executed(rows, script, n, k, e, after, r) && KeysUnique(rows) && OnlyOurs(rows, script, n, k, e)
    ensures e in after && r != Ok(1) <==> LosesAnswer(rows, script, n, k + 1, e)
  {
    hide CommitsUnseen, RowsAfter;
    if r.Ok? {
      assert LosesAnswer(rows, script, n, k + 1, e) <==> LosesAnswer(rows, script, n, k, e) by {
        CompletedIsSeen(rows, script, n, n + k - 1, e);
      }
      AnswerIsExactIff(rows, script, n, k, e, after, r);
      if LosesAnswer(rows, script, n, k, e) {
        LostAnswer(rows, script, n, k, e, after, r);
      }
    } else if LosesAnswer(rows, script, n, k + 1, e) {
      var j :| n <= j < n + k && CommitsUnseen(rows, script, n, j, e);
      CommittedRow(rows, script, n, j - n, e);
      RowsStay(rows, script, n, j - n + 1, k, e);
      assert e in RowsAfter(rows, script, n, j - n + 1, e);
    } else {
      NothingInserted(rows, script, n, k, e);
    }
  }

  lemma CompletedIsSeen(rows: seq<Event>, script: Script, n: nat, j: nat, e: Event)
    requires n <= j && script(j).fate.Completes?
    ensures !CommitsUnseen(rows, script, n, j, e)
  {
  }

  /** The first execution commits and fails, with nobody else at work; the second completes. */
  function FailsOnce(fault: Fault): Script {
    (i: nat) => Execution([], if i == 0 then FailsAfter(fault) else Completes)
  }

  /** For instance with two executions, which both executors make of such a fault. */
  lemma LosesAnswerExample(e: Event, fault: Fault)
    ensures LosesAnswer([], FailsOnce(fault), 0, 2, e) && OnlyOurs([], FailsOnce(fault), 0, 2, e)
    ensures Executed([], FailsOnce(fault), 0, 2, e, [e], Ok(0))
  {
    var script := FailsOnce(fault);
    assert CommitsUnseen([], script, 0, 0, e);
    assert RowsAfter([], script, 0, 1, e) == [e];
    assert InsertAll([e], []) == [e];
    assert Occupied([e], e.submissionId, e.seqNo) by { assert [e][0] == e; }
    assert RowsAfter([], script, 0, 2, e) == [e];
  }
}
