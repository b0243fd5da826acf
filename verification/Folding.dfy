/** Current state of a submission, derived from its event log. */
module Folding {
  import opened Prelude
  import opened Events

  /** Audit record of one internal overwrite. */
  datatype FieldOverwrite = FieldOverwrite(
    field: string, prior: Option<Value>, newValue: Option<Value>, actor: string, occurredAt: Time)

  datatype CreditNote = CreditNote(creditNoteNo: string, outcome: string, recordedAt: Time)

  datatype Submission = Submission(
    submissionId: string,
    accountId: string,
    seqNo: int,
    status: Status,
    values: Values,
    originalValues: Values,
    attachments: seq<AttachmentMeta>,
    overwrites: seq<FieldOverwrite>,
    submittedBy: string,
    submittedAt: Time,
    lastEventAt: Time,
    validatedBy: Option<string>,
    validatedAt: Option<Time>,
    validatedSeq: Option<int>,
    cpiReference: Option<string>,
    cpiError: Option<string>,
    cpiAttempts: int,
    creditNote: Option<CreditNote>)

  datatype FoldError = EmptyLog | BadStart | MixedSubmission | MixedAccount | DuplicateSeq | GapInSeq | SubmittedAgain

  // ---------------------------------------------------------------- one event

  function SetOrClear(values: Values, field: string, newValue: Option<Value>): Values {
    match newValue
    case None => values - {field}
    case Some(v) => values[field := v]
  }

  /** The state after the first event. */
  function Start(first: Event): Submission
    requires first.payload.Submitted?
  {
    Submission(
      first.submissionId, first.accountId, first.seqNo, SUBMITTED,
      first.payload.values, first.payload.values, first.payload.attachments, [],
      first.actor, first.occurredAt, first.occurredAt,
      None, None, None, None, None, 0, None)
  }

  /** The state after one more event. */
  function Apply(sub: Submission, e: Event): Submission
    requires !e.payload.Submitted?
  {
    var s := sub.(seqNo := e.seqNo, lastEventAt := e.occurredAt);
    match e.payload
    case AttachmentAdded(meta) => s.(attachments := s.attachments + [meta])
    case FieldOverwritten(f, prior, newValue) =>
      s.(values := SetOrClear(s.values, f, newValue),
         overwrites := s.overwrites + [FieldOverwrite(f, prior, newValue, e.actor, e.occurredAt)])
    case Validated =>
      s.(status := VALIDATED, validatedBy := Some(e.actor), validatedAt := Some(e.occurredAt),
         validatedSeq := Some(e.seqNo), cpiError := None, cpiAttempts := 0)
    case CpiDispatched(_, _) => s.(status := CPI_PENDING, cpiAttempts := s.cpiAttempts + 1)
    case CpiSucceeded(ref, _) => s.(status := CPI_DONE, cpiReference := Some(ref), cpiError := None)
    case CpiFailed(error, _, terminal) =>
      s.(cpiError := Some(error), status := if terminal then CPI_FAILED else s.status)
    case CreditNoteRecorded(no, outcome) => s.(creditNote := Some(CreditNote(no, outcome, e.occurredAt)))
  }

  // ------------------------------------------------------------- a whole log

  /** The checks and the update made for the event expected at position `expected` (counted from 1). */
  function Step(sub: Submission, first: Event, e: Event, expected: int): Result<Submission, FoldError> {
    if e.submissionId != first.submissionId then Err(MixedSubmission)
    else if e.accountId != first.accountId then Err(MixedAccount)
    else if e.seqNo < expected then Err(DuplicateSeq)
    else if e.seqNo != expected then Err(GapInSeq)
    else if e.payload.Submitted? then Err(SubmittedAgain)
    else Ok(Apply(sub, e))
  }

  /** Folds a log that is already in sequence order; the first offending event decides the error. */
  function Replay(log: seq<Event>): Result<Submission, FoldError> {
    if |log| == 0 then Err(EmptyLog)
    else if !log[0].payload.Submitted? || log[0].seqNo != 1 then Err(BadStart)
    else if |log| == 1 then Ok(Start(log[0]))
    else
      match Replay(log[..|log| - 1])
      case Err(e) => Err(e)
      case Ok(sub) => Step(sub, log[0], log[|log| - 1], |log|)
  }

  function InsertBySeq(e: Event, sorted: seq<Event>): (r: seq<Event>)
    ensures multiset(r) == multiset(sorted) + multiset{e}
    ensures |r| == |sorted| + 1
  {
    if |sorted| == 0 then [e]
    else
      var last := sorted[|sorted| - 1];
      assert sorted == sorted[..|sorted| - 1] + [last];
      if last.seqNo <= e.seqNo then sorted + [e]
      else InsertBySeq(e, sorted[..|sorted| - 1]) + [last]
  }

  /** `sorted(events, key=lambda e: e.seq)`: stable. */
  function SortBySeq(events: seq<Event>): (r: seq<Event>)
    ensures multiset(r) == multiset(events) && |r| == |events|
  {
    if |events| == 0 then []
    else
      var n := |events| - 1;
      assert events == events[..n] + [events[n]];
      InsertBySeq(events[n], SortBySeq(events[..n]))
  }

  /** What `fold` returns for events in any order. */
  function Fold(events: seq<Event>): Result<Submission, FoldError> {
    Replay(SortBySeq(events))
  }

  /** Mutable accumulator used only inside `FoldEvents`. */
  class State {
    var data: Submission

    constructor (first: Event)
      requires first.payload.Submitted?
      ensures data == Start(first)
    {
      data := Submission(
        first.submissionId, first.accountId, first.seqNo, SUBMITTED,
        first.payload.values, first.payload.values, first.payload.attachments, [],
        first.actor, first.occurredAt, first.occurredAt,
        None, None, None, None, None, 0, None);
    }

    method OnAttachment(meta: AttachmentMeta)
      modifies this
      ensures data == old(data).(attachments := old(data).attachments + [meta])
    {
      data := data.(attachments := data.attachments + [meta]);
    }

    method OnOverwrite(e: Event)
      requires e.payload.FieldOverwritten?
      modifies this
      ensures data == old(data).(
                values := SetOrClear(old(data).values, e.payload.field, e.payload.newValue),
                overwrites := old(data).overwrites +
                  [FieldOverwrite(e.payload.field, e.payload.prior, e.payload.newValue, e.actor, e.occurredAt)])
    {
      var p := e.payload;
      if p.newValue == None {
        data := data.(values := data.values - {p.field});
      } else {
        data := data.(values := data.values[p.field := p.newValue.value]);
      }
      data := data.(overwrites := data.overwrites + [FieldOverwrite(p.field, p.prior, p.newValue, e.actor, e.occurredAt)]);
    }

    method OnValidated(e: Event)
      modifies this
      ensures data == old(data).(
                status := VALIDATED, validatedBy := Some(e.actor), validatedAt := Some(e.occurredAt),
                validatedSeq := Some(e.seqNo), cpiError := None, cpiAttempts := 0)
    {
      data := data.(status := VALIDATED);
      data := data.(validatedBy := Some(e.actor));
      data := data.(validatedAt := Some(e.occurredAt));
      data := data.(validatedSeq := Some(e.seqNo));
      data := data.(cpiError := None);
      data := data.(cpiAttempts := 0);
    }

    method OnCpiDispatched()
      modifies this
      ensures data == old(data).(status := CPI_PENDING, cpiAttempts := old(data).cpiAttempts + 1)
    {
      data := data.(status := CPI_PENDING);
      data := data.(cpiAttempts := data.cpiAttempts + 1);
    }

    method OnCpiSucceeded(reference: string)
      modifies this
      ensures data == old(data).(status := CPI_DONE, cpiReference := Some(reference), cpiError := None)
    {
      data := data.(status := CPI_DONE);
      data := data.(cpiReference := Some(reference));
      data := data.(cpiError := None);
    }

    method OnCpiFailed(error: string, terminal: bool)
      modifies this
      ensures data == old(data).(cpiError := Some(error), status := if terminal then CPI_FAILED else old(data).status)
    {
      data := data.(cpiError := Some(error));
      if terminal {
        data := data.(status := CPI_FAILED);
      }
    }

    method OnCreditNote(e: Event)
      requires e.payload.CreditNoteRecorded?
      modifies this
      ensures data == old(data).(creditNote := Some(CreditNote(e.payload.creditNoteNo, e.payload.outcome, e.occurredAt)))
    {
      data := data.(creditNote := Some(CreditNote(e.payload.creditNoteNo, e.payload.outcome, e.occurredAt)));
    }

    /** False when the event is a second SUBMITTED, which aborts the fold. */
    method ApplyEvent(e: Event) returns (ok: bool)
      modifies this
      ensures ok <==> !e.payload.Submitted?
      ensures ok ==> data == Apply(old(data), e)
    {
      data := data.(seqNo := e.seqNo);
      data := data.(lastEventAt := e.occurredAt);
      ok := true;
      match e.payload {
        case Submitted(_, _) => ok := false;
        case AttachmentAdded(meta) => OnAttachment(meta);
        case FieldOverwritten(_, _, _) => OnOverwrite(e);
        case Validated => OnValidated(e);
        case CpiDispatched(_, _) => OnCpiDispatched();
        case CpiSucceeded(reference, _) => OnCpiSucceeded(reference);
        case CpiFailed(error, _, terminal) => OnCpiFailed(error, terminal);
        case CreditNoteRecorded(_, _) => OnCreditNote(e);
      }
    }
  }

  /** `fold`: sort, check and accumulate. */
  method FoldEvents(events: seq<Event>) returns (r: Result<Submission, FoldError>)
    ensures r == Fold(events)
  {
    hide InsertBySeq, Apply;
    if |events| == 0 {
      return Err(EmptyLog);
    }
    var ordered := SortBySeq(events);
    var first := ordered[0];
    if !first.payload.Submitted? || first.seqNo != 1 {
      return Err(BadStart);
    }
    var state := new State(first);
    var i := 1;
    assert ordered[..1] == [first];
    while i < |ordered|
      invariant 1 <= i <= |ordered|
      invariant Replay(ordered[..i]) == Ok(state.data)
    {
      var e, expected := ordered[i], i + 1;
      ReplayOneMore(ordered, i);
      if e.submissionId != first.submissionId {
        return Err(MixedSubmission);
      }
      if e.accountId != first.accountId {
        return Err(MixedAccount);
      }
      if e.seqNo < expected {
        return Err(DuplicateSeq);
      }
      if e.seqNo != expected {
        return Err(GapInSeq);
      }
      var ok := state.ApplyEvent(e);
      if !ok {
        return Err(SubmittedAgain);
      }
      i := i + 1;
    }
    assert ordered[..i] == ordered;
    return Ok(state.data);
  }

  lemma ReplayNext(log: seq<Event>, e: Event)
    requires Replay(log).Ok?
    ensures Replay(log + [e]) == Step(Replay(log).value, log[0], e, |log| + 1)
  {
    assert (log + [e])[..|log|] == log;
  }

  lemma ReplayOneMore(log: seq<Event>, i: nat)
    requires 1 <= i < |log| && Replay(log[..i]).Ok?
    ensures Replay(log[..i + 1]) == Step(Replay(log[..i]).value, log[0], log[i], i + 1)
    ensures Replay(log[..i + 1]).Err? ==> Replay(log) == Replay(log[..i + 1])
  {
    assert log[..i + 1] == log[..i] + [log[i]];
    ReplayNext(log[..i], log[i]);
    if Replay(log[..i + 1]).Err? {
      ErrorPersists(log, i + 1);
    }
  }

  lemma {:induction false} ErrorPersists(log: seq<Event>, n: nat)
    requires 1 <= n <= |log| && Replay(log[..n]).Err?
    ensures Replay(log) == Replay(log[..n])
    decreases |log|
  {
    if n == |log| {
      assert log[..n] == log;
    } else {
      var init := log[..|log| - 1];
      assert init[..n] == log[..n];
      ErrorPersists(init, n);
    }
  }

  // --------------------------------------------- when folding succeeds at all

  /** Numbered 1, 2, 3, ...; one submission, one account; SUBMITTED first and nowhere else. */
  predicate WellFormed(log: seq<Event>) {
    && |log| > 0
    && forall i :: 0 <= i < |log| ==>
         && log[i].seqNo == i + 1
         && log[i].submissionId == log[0].submissionId
         && log[i].accountId == log[0].accountId
         && (log[i].payload.Submitted? <==> i == 0)
  }

  /** The event that may follow `log`, whatever the writers' own rules. */
  predicate Continues(log: seq<Event>, e: Event)
    requires |log| > 0
  {
    e.seqNo == |log| + 1 && e.submissionId == log[0].submissionId && e.accountId == log[0].accountId && !e.payload.Submitted?
  }

  /** The state of a well-formed log. */
  function StateOf(log: seq<Event>): Submission
    requires WellFormed(log)
  {
    if |log| == 1 then Start(log[0]) else Apply(StateOf(log[..|log| - 1]), log[|log| - 1])
  }

  lemma WellFormedPrefix(log: seq<Event>, n: nat)
    requires WellFormed(log) && 1 <= n <= |log|
    ensures WellFormed(log[..n])
  {
  }

  lemma WellFormedExtend(log: seq<Event>, e: Event)
    requires |log| > 0
    ensures WellFormed(log + [e]) <==> WellFormed(log) && Continues(log, e)
    ensures WellFormed(log + [e]) ==> StateOf(log + [e]) == Apply(StateOf(log), e)
  {
    var ext := log + [e];
    assert ext[..|log|] == log && ext[|log|] == e && ext[0] == log[0];
    if WellFormed(ext) {
      WellFormedPrefix(ext, |log|);
    }
    if WellFormed(log) && Continues(log, e) {
      forall i | 0 <= i < |ext|
        ensures ext[i].seqNo == i + 1 && ext[i].submissionId == ext[0].submissionId
        ensures ext[i].accountId == ext[0].accountId && (ext[i].payload.Submitted? <==> i == 0)
      {
        assert i < |log| ==> ext[i] == log[i];
      }
    }
  }

  lemma {:induction false} ReplaySucceedsIff(log: seq<Event>)
    ensures Replay(log).Ok? <==> WellFormed(log)
    ensures WellFormed(log) ==> Replay(log) == Ok(StateOf(log))
  {
    if |log| > 1 {
      var init, last := log[..|log| - 1], log[|log| - 1];
      ReplaySucceedsIff(init);
      assert log == init + [last];
      WellFormedExtend(init, last);
    }
  }

  predicate SortedBySeq(log: seq<Event>) {
    forall i, j :: 0 <= i < j < |log| ==> log[i].seqNo <= log[j].seqNo
  }

  /** What is wrong with the first event that a well-formed log does not go on with. */
  predicate Offends(log: seq<Event>, k: nat, error: FoldError)
    requires k < |log|
  {
    var first, e := log[0], log[k];
    if k == 0 then error == BadStart
    else if e.submissionId != first.submissionId then error == MixedSubmission
    else if e.accountId != first.accountId then error == MixedAccount
    else
      match error
      case DuplicateSeq => exists j :: 0 <= j < k && log[j].seqNo == e.seqNo
      case GapInSeq => forall j :: 0 <= j < k ==> log[j].seqNo + 1 < e.seqNo
      case SubmittedAgain => e.seqNo == k + 1 && e.payload.Submitted?
      case _ => false
  }

  /** The log is well formed up to position `k` and not with the event there. */
  predicate GoesWrongAt(log: seq<Event>, k: nat) {
    k < |log| && (k == 0 || WellFormed(log[..k])) && !WellFormed(log[..k + 1])
  }

  /** The error of the step is the one the event calls for. */
  lemma StepFails(log: seq<Event>, k: nat, sub: Submission, error: FoldError)
    requires 0 < k < |log| && forall j :: 0 <= j < k ==> log[j].seqNo == j + 1
    ensures Step(sub, log[0], log[k], k + 1) == Err(error) <==> !Continues(log[..k], log[k]) && Offends(log, k, error)
  {
    hide Apply;
    if log[k].seqNo <= k {
      assert log[log[k].seqNo - 1].seqNo == log[k].seqNo;
    }
    assert log[k - 1].seqNo == k;
  }

  /** A log in sequence order fails at the first event after its well-formed beginning, with the error that event calls for. */
  lemma ReplayFails(log: seq<Event>, k: nat, error: FoldError)
    requires GoesWrongAt(log, k)
    ensures Replay(log) == Err(error) <==> Offends(log, k, error)
  {
    if k == 0 {
      assert log[..1][0] == log[0];
    } else {
      hide Offends, Step, Replay;
      assert log[..k + 1] == log[..k] + [log[k]];
      WellFormedExtend(log[..k], log[k]);
      ReplaySucceedsIff(log[..k]);
      ReplayOneMore(log, k);
      assert forall j :: 0 <= j < k ==> log[j] == log[..k][j];
      StepFails(log, k, StateOf(log[..k]), error);
      FailsOrNot(log, k);
    }
  }

  lemma FailsOrNot(log: seq<Event>, k: nat)
    requires 0 < k < |log| && WellFormed(log[..k]) && !Continues(log[..k], log[k])
    ensures Step(StateOf(log[..k]), log[0], log[k], k + 1).Err?
  {
    hide StateOf, Apply;
  }

  lemma {:induction false} FirstOffender(log: seq<Event>) returns (k: nat)
    requires |log| > 0 && !WellFormed(log)
    ensures GoesWrongAt(log, k)
  {
    var init := log[..|log| - 1];
    if |log| == 1 || WellFormed(init) {
      k := |log| - 1;
      assert log[..k + 1] == log;
    } else {
      k := FirstOffender(init);
      assert init[..k] == log[..k] && init[..k + 1] == log[..k + 1];
    }
  }

  lemma ReplayFailsAt(log: seq<Event>, error: FoldError) returns (k: nat)
    requires |log| > 0 && Replay(log) == Err(error)
    ensures GoesWrongAt(log, k) && Offends(log, k, error)
  {
    hide Offends, Replay, WellFormed;
    ReplaySucceedsIff(log);
    k := FirstOffender(log);
    ReplayFails(log, k, error);
  }

  /** A fold that fails says what is wrong with the first event, in sequence order, that does not continue a log. */
  lemma FoldFails(events: seq<Event>, error: FoldError)
    requires Fold(events) == Err(error)
    ensures |events| == 0 ==> error == EmptyLog
    ensures |events| > 0 ==> exists k: nat :: GoesWrongAt(SortBySeq(events), k) && Offends(SortBySeq(events), k, error)
  {
    hide GoesWrongAt, Offends, Replay, InsertBySeq;
    if |events| > 0 {
      var k := ReplayFailsAt(SortBySeq(events), error);
    } else {
      EmptyFails(SortBySeq(events));
    }
  }

  lemma EmptyFails(log: seq<Event>)
    requires |log| == 0
    ensures Replay(log) == Err(EmptyLog)
  {
  }

  lemma InsertMembers(e: Event, sorted: seq<Event>)
    ensures forall x :: x in InsertBySeq(e, sorted) <==> x in sorted || x == e
  {
    var r := InsertBySeq(e, sorted);
    forall x
      ensures x in r <==> x in sorted || x == e
    {
      assert x in r <==> x in multiset(r);
      assert x in sorted <==> x in multiset(sorted);
    }
  }

  lemma {:induction false} InsertKeepsOrder(e: Event, sorted: seq<Event>)
    requires SortedBySeq(sorted)
    ensures SortedBySeq(InsertBySeq(e, sorted))
  {
    if |sorted| > 0 && sorted[|sorted| - 1].seqNo > e.seqNo {
      var init, last := sorted[..|sorted| - 1], sorted[|sorted| - 1];
      InsertKeepsOrder(e, init);
      var r := InsertBySeq(e, init);
      forall i | 0 <= i < |r|
        ensures r[i].seqNo <= last.seqNo
      {
        InsertMembers(e, init);
        assert r[i] in r;
      }
    }
  }

  lemma {:induction false} SortIsSorted(events: seq<Event>)
    ensures SortedBySeq(SortBySeq(events))
  {
    if |events| > 0 {
      SortIsSorted(events[..|events| - 1]);
      InsertKeepsOrder(events[|events| - 1], SortBySeq(events[..|events| - 1]));
    }
  }

  lemma WithoutLast(xs: seq<Event>)
    requires |xs| > 0
    ensures multiset(xs[..|xs| - 1]) == multiset(xs) - multiset{xs[|xs| - 1]}
  {
    assert xs == xs[..|xs| - 1] + [xs[|xs| - 1]];
  }

  lemma SameLast(sorted: seq<Event>, log: seq<Event>)
    requires SortedBySeq(sorted) && multiset(sorted) == multiset(log) && |sorted| == |log| > 0
    requires forall i :: 0 <= i < |log| ==> log[i].seqNo == i + 1
    ensures sorted[|log| - 1] == log[|log| - 1]
  {
    var n := |log| - 1;
    assert log[n] in multiset(log);
    assert log[n] in multiset(sorted);
    var k :| 0 <= k < |sorted| && sorted[k] == log[n];
    assert sorted[n] in multiset(sorted);
    assert sorted[n] in multiset(log);
    var j :| 0 <= j < |log| && log[j] == sorted[n];
    assert sorted[k].seqNo <= sorted[n].seqNo;
  }

  /** A well-formed log is the only sorted arrangement of its own events. */
  lemma {:induction false} SortedArrangementUnique(sorted: seq<Event>, log: seq<Event>)
    requires SortedBySeq(sorted) && multiset(sorted) == multiset(log)
    requires forall i :: 0 <= i < |log| ==> log[i].seqNo == i + 1
    ensures sorted == log
  {
    assert |sorted| == |multiset(sorted)| == |multiset(log)| == |log|;
    if |log| > 0 {
      var n := |log| - 1;
      SameLast(sorted, log);
      WithoutLast(sorted);
      WithoutLast(log);
      SortedArrangementUnique(sorted[..n], log[..n]);
    }
  }

  /** `fold` succeeds exactly when the events are an arrangement of a well-formed log, and then gives its state. */
  lemma FoldSucceedsIff(events: seq<Event>)
    ensures Fold(events).Ok? <==> exists log :: WellFormed(log) && multiset(log) == multiset(events)
    ensures forall log :: WellFormed(log) && multiset(log) == multiset(events) ==> Fold(events) == Ok(StateOf(log))
  {
    var sorted := SortBySeq(events);
    SortIsSorted(events);
    ReplaySucceedsIff(sorted);
    forall log | WellFormed(log) && multiset(log) == multiset(events)
      ensures log == sorted
    {
      SortedArrangementUnique(sorted, log);
    }
  }

  /** A fold that succeeds does not depend on the order in which the events arrive. */
  lemma FoldIgnoresOrder(a: seq<Event>, b: seq<Event>)
    requires multiset(a) == multiset(b)
    ensures Fold(a).Ok? <==> Fold(b).Ok?
    ensures Fold(a).Ok? ==> Fold(a) == Fold(b)
  {
    FoldSucceedsIff(a);
    FoldSucceedsIff(b);
    if Fold(a).Ok? || Fold(b).Ok? {
      var log :| WellFormed(log) && multiset(log) == multiset(a);
      assert Fold(a) == Ok(StateOf(log)) == Fold(b);
    }
  }

  lemma FoldOfLog(log: seq<Event>)
    requires WellFormed(log)
    ensures Fold(log) == Ok(StateOf(log))
  {
    hide Fold;
    FoldSucceedsIff(log);
  }

  /** Folding a log with its next event is applying that event to the folded log. */
  lemma FoldIsIncremental(log: seq<Event>, e: Event)
    requires WellFormed(log)
    ensures Fold(log) == Ok(StateOf(log))
    ensures Continues(log, e) ==> Fold(log + [e]) == Ok(Apply(Fold(log).value, e))
  {
    hide Fold;
    FoldOfLog(log);
    if Continues(log, e) {
      WellFormedExtend(log, e);
      FoldOfLog(log + [e]);
    }
  }

  // ------------------------------------- what the folded fields say of the log

  /** The most recent event of `log` that `p` selects. */
  function Latest(log: seq<Event>, p: Event -> bool): (r: Option<Event>)
    ensures r.Some? ==> p(r.value) && r.value in log
  {
    if |log| == 0 then None
    else if p(log[|log| - 1]) then Some(log[|log| - 1])
    else Latest(log[..|log| - 1], p)
  }

  function CountSince(log: seq<Event>, counted: Event -> bool, reset: Event -> bool): nat {
    if |log| == 0 || reset(log[|log| - 1]) then 0
    else CountSince(log[..|log| - 1], counted, reset) + if counted(log[|log| - 1]) then 1 else 0
  }

  const IS_VALIDATED := (e: Event) => e.payload.Validated?
  const IS_DISPATCHED := (e: Event) => e.payload.CpiDispatched?
  const IS_SUCCEEDED := (e: Event) => e.payload.CpiSucceeded?
  const IS_CREDIT_NOTE := (e: Event) => e.payload.CreditNoteRecorded?
  const SETS_ERROR := (e: Event) => e.payload.Validated? || e.payload.CpiSucceeded? || e.payload.CpiFailed?
  const SETS_STATUS := (e: Event) =>
    e.payload.Validated? || e.payload.CpiDispatched? || e.payload.CpiSucceeded? || (e.payload.CpiFailed? && e.payload.terminal)

  function OverwritesField(field: string): Event -> bool {
    (e: Event) => e.payload.FieldOverwritten? && e.payload.field == field
  }

  function StatusAfter(e: Option<Event>): Status {
    match e
    case None => SUBMITTED
    case Some(ev) =>
      match ev.payload
      case Validated => VALIDATED
      case CpiDispatched(_, _) => CPI_PENDING
      case CpiSucceeded(_, _) => CPI_DONE
      case CpiFailed(_, _, _) => CPI_FAILED
      case _ => SUBMITTED
  }

  lemma ApplyKeepsProvenance(sub: Submission, e: Event)
    requires !e.payload.Submitted?
    ensures var after := Apply(sub, e);
            && after.submissionId == sub.submissionId && after.accountId == sub.accountId
            && after.submittedBy == sub.submittedBy && after.submittedAt == sub.submittedAt
            && after.originalValues == sub.originalValues
  {
    hide SetOrClear;
  }

  /** Identity and provenance are those of the first event. */
  lemma {:induction false} FoldedProvenance(log: seq<Event>)
    requires WellFormed(log)
    ensures StateOf(log).submissionId == log[0].submissionId && StateOf(log).accountId == log[0].accountId
    ensures StateOf(log).submittedBy == log[0].actor && StateOf(log).submittedAt == log[0].occurredAt
    ensures StateOf(log).originalValues == log[0].payload.values
  {
    hide Apply;
    if |log| > 1 {
      FoldedProvenance(log[..|log| - 1]);
      ApplyKeepsProvenance(StateOf(log[..|log| - 1]), log[|log| - 1]);
    }
  }

  /** Position and age are those of the last event. */
  lemma {:induction false} FoldedPosition(log: seq<Event>)
    requires WellFormed(log)
    ensures StateOf(log).seqNo == |log| && StateOf(log).lastEventAt == log[|log| - 1].occurredAt
  {
  }

  /** The status is the one the latest status-setting event leads to. */
  lemma {:induction false} FoldedStatus(log: seq<Event>)
    requires WellFormed(log)
    ensures StateOf(log).status == StatusAfter(Latest(log, SETS_STATUS))
  {
    hide SetOrClear;
    if |log| > 1 {
      FoldedStatus(log[..|log| - 1]);
    } else {
      assert log[..0] == [];
    }
  }

  /** The attempts are the dispatches since the latest validation. */
  lemma {:induction false} FoldedAttempts(log: seq<Event>)
    requires WellFormed(log)
    ensures StateOf(log).cpiAttempts == CountSince(log, IS_DISPATCHED, IS_VALIDATED)
  {
    if |log| > 1 {
      FoldedAttempts(log[..|log| - 1]);
    } else {
      assert log[..0] == [];
    }
  }

  lemma ApplyValidation(sub: Submission, e: Event)
    requires !e.payload.Submitted?
    ensures var after := Apply(sub, e);
            if e.payload.Validated? then
              after.validatedSeq == Some(e.seqNo) && after.validatedBy == Some(e.actor) && after.validatedAt == Some(e.occurredAt)
            else
              && after.validatedSeq == sub.validatedSeq && after.validatedBy == sub.validatedBy
              && after.validatedAt == sub.validatedAt
  {
    hide SetOrClear;
  }

  /** The validation fields are those of the latest VALIDATED. */
  lemma {:induction false} FoldedValidation(log: seq<Event>)
    requires WellFormed(log)
    ensures match Latest(log, IS_VALIDATED)
            case None => StateOf(log).validatedSeq == None && StateOf(log).validatedBy == None && StateOf(log).validatedAt == None
            case Some(e) =>
              && StateOf(log).validatedSeq == Some(e.seqNo) && StateOf(log).validatedBy == Some(e.actor)
              && StateOf(log).validatedAt == Some(e.occurredAt)
  {
    hide Apply;
    if |log| > 1 {
      FoldedValidation(log[..|log| - 1]);
      ApplyValidation(StateOf(log[..|log| - 1]), log[|log| - 1]);
    } else {
      assert log[..0] == [];
    }
  }

  /** The reference is the one CPI gave last. */
  lemma {:induction false} FoldedReference(log: seq<Event>)
    requires WellFormed(log)
    ensures StateOf(log).cpiReference ==
            match Latest(log, IS_SUCCEEDED) case None => None case Some(e) => Some(e.payload.cpiReference)
  {
    if |log| > 1 {
      FoldedReference(log[..|log| - 1]);
    } else {
      assert log[..0] == [];
    }
  }

  /** The credit note is the latest one recorded. */
  lemma {:induction false} FoldedCreditNote(log: seq<Event>)
    requires WellFormed(log)
    ensures StateOf(log).creditNote ==
            match Latest(log, IS_CREDIT_NOTE)
            case None => None
            case Some(e) => Some(CreditNote(e.payload.creditNoteNo, e.payload.outcome, e.occurredAt))
  {
    if |log| > 1 {
      FoldedCreditNote(log[..|log| - 1]);
    } else {
      assert log[..0] == [];
    }
  }

  /** There is an error exactly when the latest event that bears on it is a failure. */
  lemma {:induction false} FoldedError(log: seq<Event>)
    requires WellFormed(log)
    ensures StateOf(log).cpiError ==
            match Latest(log, SETS_ERROR)
            case None => None
            case Some(e) => if e.payload.CpiFailed? then Some(e.payload.error) else None
  {
    if |log| > 1 {
      FoldedError(log[..|log| - 1]);
    } else {
      assert log[..0] == [];
    }
  }

  /** What the latest overwrite put into the field, and the customer's value when it was never overwritten. */
  function ValueAt(log: seq<Event>, field: string): Option<Value>
    requires WellFormed(log)
  {
    match Latest(log, OverwritesField(field))
    case None => Lookup(log[0].payload.values, field)
    case Some(e) => e.payload.newValue
  }

  /** That is what the field holds. */
  lemma {:induction false} FoldedValues(log: seq<Event>, field: string)
    requires WellFormed(log)
    ensures Lookup(StateOf(log).values, field) == ValueAt(log, field)
  {
    if |log| > 1 {
      var init, last := log[..|log| - 1], log[|log| - 1];
      FoldedValues(init, field);
      assert StateOf(log) == Apply(StateOf(init), last);
      hide WellFormed, StateOf;
      assert Lookup(Apply(StateOf(init), last).values, field) ==
             if OverwritesField(field)(last) then last.payload.newValue else Lookup(StateOf(init).values, field);
    } else {
      assert log[..0] == [];
    }
  }

  /** The attachments of the submit, then the added ones in order. */
  function AttachmentsOf(log: seq<Event>): seq<AttachmentMeta> {
    if |log| == 0 then []
    else
      AttachmentsOf(log[..|log| - 1]) +
      match log[|log| - 1].payload
      case Submitted(_, attachments) => attachments
      case AttachmentAdded(meta) => [meta]
      case _ => []
  }

  lemma {:induction false} FoldedAttachments(log: seq<Event>)
    requires WellFormed(log)
    ensures StateOf(log).attachments == AttachmentsOf(log)
  {
    if |log| > 1 {
      FoldedAttachments(log[..|log| - 1]);
    } else {
      assert log[..0] == [];
    }
  }

  // -------------------------------------------------------------- audit trail

  /** Takes back recorded overwrites, newest first. */
  function Undo(values: Values, trail: seq<FieldOverwrite>): Values
    decreases |trail|
  {
    if |trail| == 0 then values
    else
      var last := trail[|trail| - 1];
      Undo(SetOrClear(values, last.field, last.prior), trail[..|trail| - 1])
  }

  /** Makes recorded overwrites again, oldest first. */
  function Redo(values: Values, trail: seq<FieldOverwrite>): Values {
    if |trail| == 0 then values
    else
      var last := trail[|trail| - 1];
      SetOrClear(Redo(values, trail[..|trail| - 1]), last.field, last.newValue)
  }

  /** Every overwrite recorded the value it replaced. */
  predicate PriorsFaithful(log: seq<Event>)
    requires WellFormed(log)
  {
    forall k :: 1 <= k < |log| && log[k].payload.FieldOverwritten? ==>
      (WellFormedPrefix(log, k);
       log[k].payload.prior == Lookup(StateOf(log[..k]).values, log[k].payload.field))
  }

  lemma ApplyExtendsTrail(sub: Submission, e: Event)
    requires !e.payload.Submitted?
    ensures var after := Apply(sub, e);
            && after.originalValues == sub.originalValues
            && if e.payload.FieldOverwritten? then
                 && after.values == SetOrClear(sub.values, e.payload.field, e.payload.newValue)
                 && after.overwrites == sub.overwrites +
                    [FieldOverwrite(e.payload.field, e.payload.prior, e.payload.newValue, e.actor, e.occurredAt)]
               else after.values == sub.values && after.overwrites == sub.overwrites
  {
    hide SetOrClear;
  }

  /** Making the recorded overwrites again on what the customer submitted gives the current values. */
  lemma {:induction false} RedoGivesCurrent(log: seq<Event>)
    requires WellFormed(log)
    ensures Redo(StateOf(log).originalValues, StateOf(log).overwrites) == StateOf(log).values
  {
    hide Apply;
    if |log| > 1 {
      var init, e := log[..|log| - 1], log[|log| - 1];
      RedoGivesCurrent(init);
      ApplyExtendsTrail(StateOf(init), e);
      if e.payload.FieldOverwritten? {
        var trail := StateOf(log).overwrites;
        assert trail[..|trail| - 1] == StateOf(init).overwrites;
      }
    }
  }

  lemma PriorsFaithfulPrefix(log: seq<Event>, n: nat)
    requires WellFormed(log) && PriorsFaithful(log) && 1 <= n <= |log|
    ensures WellFormed(log[..n]) && PriorsFaithful(log[..n])
  {
    WellFormedPrefix(log, n);
    forall j | 1 <= j < n
      ensures log[..n][..j] == log[..j] && WellFormed(log[..j])
    {
      WellFormedPrefix(log, j);
    }
  }

  lemma UndoOne(values: Values, field: string, newValue: Option<Value>)
    ensures SetOrClear(SetOrClear(values, field, newValue), field, Lookup(values, field)) == values
  {
  }

  /** Undoing the recorded overwrites, newest first, gives back what the customer submitted. */
  lemma {:induction false} UndoGivesOriginal(log: seq<Event>)
    requires WellFormed(log) && PriorsFaithful(log)
    ensures Undo(StateOf(log).values, StateOf(log).overwrites) == StateOf(log).originalValues
  {
    hide Apply;
    if |log| > 1 {
      var k := |log| - 1;
      var init, e := log[..k], log[k];
      PriorsFaithfulPrefix(log, k);
      UndoGivesOriginal(init);
      ApplyExtendsTrail(StateOf(init), e);
      if e.payload.FieldOverwritten? {
        UndoOne(StateOf(init).values, e.payload.field, e.payload.newValue);
        var trail := StateOf(log).overwrites;
        assert trail[..|trail| - 1] == StateOf(init).overwrites;
      }
    }
  }
}
