/** Internal review: overwrite fields and validate, each as one event append. */
module Review {
  import opened Prelude
  import opened Events
  import opened Folding
  import opened Repository
  import opened SqlStore
  import opened Repositories
  import opened FieldSpecs
  import opened Validator
  import opened Services

  predicate Reviewable(status: Status) {
    status.SUBMITTED? || status.CPI_FAILED?
  }

  /** Fields the internal team may overwrite: all but the owning account. */
  predicate Correctable(spec: FormSpec, name: string) {
    spec.Names(name) && (spec.AccountField().Some? ==> name != spec.AccountField().value.name)
  }

  datatype Command = Overwrite(field: string, newValue: Raw) | Release

  /** The checks on the loaded log, before anything specific to the command. */
  function LoadError(p: Principal, log: seq<Event>, expected: int): Option<ServiceError>
    requires WellFormed(log)
  {
    var sub := StateOf(log);
    if sub.seqNo != expected then Some(Stale)
    else if !Reviewable(sub.status) then Some(WrongState(sub.status))
    else None
  }

  /** The event a review command appends to the log it has loaded, or why it refuses. */
  function Decide(cfg: Config, p: Principal, log: seq<Event>, expected: int, cmd: Command, at: Time): (r: Result<Event, ServiceError>)
    requires cfg.spec.Loaded() && WellFormed(log)
    ensures r.Ok? ==> Continues(log, r.value)
  {
    FoldedProvenance(log);
    FoldedPosition(log);
    if !p.IsInternal() then Err(NotPermitted)
    else
      match LoadError(p, log, expected)
      case Some(error) => Err(error)
      case None =>
        var sub := StateOf(log);
        var options := OptionsFor(cfg, p, sub.accountId);
        match cmd
        case Release =>
          (match CheckForm(cfg.lib, cfg.spec, RawValues(sub.values), options)
           case Crashed => Err(Unexpected)
           case Validation(_, errors) =>
             if errors != map[] then Err(Invalid(errors))
             else Ok(Event(sub.submissionId, sub.accountId, expected + 1, p.email, Internal, at, Validated)))
        case Overwrite(field, raw) =>
          if !cfg.spec.Names(field) then Err(Invalid(map[field := [UnknownField]]))
          else if !Correctable(cfg.spec, field) then Err(Invalid(map[field := [CannotChange]]))
          else
            match ValidateField(cfg.lib, cfg.spec.Field(field), raw, OptionsAt(options, field))
            case Raised => Err(Unexpected)
            case Rejected(messages) => Err(Invalid(map[field := messages]))
            case Accepted(v) =>
              Ok(Event(sub.submissionId, sub.accountId, expected + 1, p.email, Internal, at,
                       FieldOverwritten(field, Lookup(sub.values, field), v)))
  }

  /** The command itself is in order for these values. */
  predicate Permitted(cfg: Config, p: Principal, sub: Submission, cmd: Command)
    requires cfg.spec.Loaded()
  {
    var options := OptionsFor(cfg, p, sub.accountId);
    match cmd
    case Release => CheckForm(cfg.lib, cfg.spec, RawValues(sub.values), options).Ok()
    case Overwrite(field, raw) =>
      Correctable(cfg.spec, field) && ValidateField(cfg.lib, cfg.spec.Field(field), raw, OptionsAt(options, field)).Accepted?
  }

  /** A command is accepted exactly from the internal team, on the latest log, in a reviewable status, when it is in order. */
  lemma DecidesIff(
      cfg: Config, p: Principal, log: seq<Event>, expected: int, cmd: Command, at: Time)
    requires cfg.spec.Loaded() && WellFormed(log)
    ensures Decide(cfg, p, log, expected, cmd, at).Ok? <==>
            p.role.Internal? && expected == |log| && Reviewable(StateOf(log).status) && Permitted(cfg, p, StateOf(log), cmd)
  {
    hide StateOf, CheckForm, ValidateField, OptionsFor, RawValues;
    FoldedPosition(log);
  }

  /** The event names the caller as its author, at that time. */
  predicate SignedBy(e: Event, p: Principal, at: Time) {
    e.actor == p.email && e.actorRole.Internal? && e.occurredAt == at
  }

  /** Whoever gives the command is on record for it, with what the command was about. */
  lemma DecidedBy(cfg: Config, p: Principal, log: seq<Event>, expected: int, cmd: Command, at: Time)
    requires cfg.spec.Loaded() && WellFormed(log) && Decide(cfg, p, log, expected, cmd, at).Ok?
    ensures var e := Decide(cfg, p, log, expected, cmd, at).value;
            && SignedBy(e, p, at) && e.seqNo == |log| + 1
            && match cmd
               case Release => e.payload.Validated?
               case Overwrite(field, _) =>
                 e.payload.FieldOverwritten? && e.payload.field == field && e.payload.prior == Lookup(StateOf(log).values, field)
  {
    hide StateOf, CheckForm, ValidateField, OptionsFor, RawValues;
  }

  /** A refusal names the first thing in the way: the role, the sequence number, the status, or the values. */
  lemma RefusalTells(cfg: Config, p: Principal, log: seq<Event>, expected: int, cmd: Command, at: Time, error: ServiceError)
    requires cfg.spec.Loaded() && WellFormed(log) && Decide(cfg, p, log, expected, cmd, at) == Err(error)
    ensures var status := StateOf(log).status;
            if !p.role.Internal? then error == NotPermitted
            else if |log| != expected then error == Stale
            else if !Reviewable(status) then error == WrongState(status)
            else InvalidFor(cfg, StateOf(log), p, cmd, error)
  {
    hide StateOf, CheckForm, ValidateField, OptionsFor, RawValues;
    FoldedPosition(log);
  }

  /** What the validator has against the command. */
  predicate InvalidFor(cfg: Config, sub: Submission, p: Principal, cmd: Command, error: ServiceError)
    requires cfg.spec.Loaded()
  {
    var options := OptionsFor(cfg, p, sub.accountId);
    match cmd
    case Release =>
      var r := CheckForm(cfg.lib, cfg.spec, RawValues(sub.values), options);
      if r.Crashed? then error == Unexpected else r.errors != map[] && error == Invalid(r.errors)
    case Overwrite(field, raw) =>
      if !cfg.spec.Names(field) then error == Invalid(map[field := [UnknownField]])
      else if cfg.spec.AccountField().Some? && cfg.spec.AccountField().value.name == field then
        error == Invalid(map[field := [CannotChange]])
      else
        var r := ValidateField(cfg.lib, cfg.spec.Field(field), raw, OptionsAt(options, field));
        if r.Raised? then error == Unexpected else r.Rejected? && error == Invalid(map[field := r.messages])
  }

  /** The latest audit record is of this field, as it is now, by this person and at this time. */
  predicate OnRecord(sub: Submission, field: string, actor: string, at: Time) {
    && sub.overwrites != []
    && var record := sub.overwrites[|sub.overwrites| - 1];
       record == FieldOverwrite(field, record.prior, Lookup(sub.values, field), actor, at)
  }

  lemma OverwriteIsOnRecord(sub: Submission, e: Event)
    requires e.payload.FieldOverwritten?
    ensures OnRecord(Apply(sub, e), e.payload.field, e.actor, e.occurredAt)
  {
  }

  class ReviewService {
    const cfg: Config
    const repo: SubmissionRepository

    constructor (cfg: Config, repo: SubmissionRepository)
      ensures this.cfg == cfg && this.repo == repo
    {
      this.cfg, this.repo := cfg, repo;
    }

    /** The log and its state, once the caller, the sequence number and the status are in order. */
    method Load(p: Principal, sid: string, expected: int) returns (r: Result<(seq<Event>, Submission), ServiceError>)
      requires repo.Valid()
      ensures r == if !p.IsInternal() then Err(NotPermitted)
                   else match EventsAnswer(repo.Logs(), p, sid)
                        case Err(error) => Err(Store(error))
                        case Ok(log) =>
                          match LoadError(p, log, expected)
                          case Some(error) => Err(error)
                          case None => Ok((log, StateOf(log)))
    {
      hide Represents, StateOf, Fold;
      if !p.IsInternal() {
        return Err(NotPermitted);
      }
      var log := repo.GetEvents(p, sid);
      if log.Err? {
        return Err(Store(log.error));
      }
      FoldSucceedsIff(log.value);
      var sub := FoldEvents(log.value);
      if sub.value.seqNo != expected {
        return Err(Stale);
      }
      if !Reviewable(sub.value.status) {
        return Err(WrongState(sub.value.status));
      }
      return Ok((log.value, sub.value));
    }

    /** Appends the event and folds the log with it. */
    method Append(p: Principal, log: seq<Event>, expected: int, e: Event) returns (r: Result<Submission, ServiceError>)
      requires repo.Valid() && p.IsInternal() && WellFormed(log) && Continues(log, e) && expected == |log|
      requires e.submissionId in repo.Logs() && repo.Logs()[e.submissionId] == log
      modifies repo.Objects()
      ensures repo.Valid() && repo.Logs() == old(repo.Logs())[e.submissionId := log + [e]]
      ensures r == Ok(Apply(StateOf(log), e))
    {
      hide Represents, StateOf, AppendAnswer, AfterAppend, Apply, Fold;
      NextAppends(repo.Logs(), p, e.submissionId, e);
      var appended := repo.AppendEvent(p, e.submissionId, expected, e);
      FoldIsIncremental(log, e);
      var sub := FoldEvents(log + [e]);
      return Ok(sub.value);
    }

    method OverwriteField(p: Principal, sid: string, field: string, newValue: Raw, expected: int, at: Time)
      returns (r: Result<Submission, ServiceError>)
      requires repo.Valid() && cfg.spec.Loaded()
      modifies repo.Objects()
      ensures repo.Valid()
      ensures Reviewed(cfg, old(repo.Logs()), p, sid, expected, Overwrite(field, newValue), at, repo.Logs(), r)
      ensures r.Ok? ==> OnRecord(r.value, field, p.email, at)
    {
      hide StateOf, Represents, WellFormed, OnRecord, Apply, CheckForm, ValidateField;
      var loaded := Load(p, sid, expected);
      if loaded.Err? {
        return Err(loaded.error);
      }
      var (log, sub) := loaded.value;
      if !Correctable(cfg.spec, field) {
        return Err(Invalid(map[field := [if !cfg.spec.Names(field) then UnknownField else CannotChange]]));
      }
      var options := OptionsFor(cfg, p, sub.accountId);
      var checked := ValidateField(cfg.lib, cfg.spec.Field(field), newValue, OptionsAt(options, field));
      if checked.Raised? {
        return Err(Unexpected);
      }
      if checked.Rejected? {
        return Err(Invalid(map[field := checked.messages]));
      }
      FoldedProvenance(log);
      FoldedPosition(log);
      var e := Event(sub.submissionId, sub.accountId, expected + 1, p.email, Internal, at,
                     FieldOverwritten(field, Lookup(sub.values, field), checked.value));
      OverwriteIsOnRecord(sub, e);
      r := Append(p, log, expected, e);
    }

    method Validate(p: Principal, sid: string, expected: int, at: Time) returns (r: Result<Submission, ServiceError>)
      requires repo.Valid() && cfg.spec.Loaded()
      modifies repo.Objects()
      ensures repo.Valid()
      ensures Reviewed(cfg, old(repo.Logs()), p, sid, expected, Release, at, repo.Logs(), r)
      ensures r.Ok? ==>
                && r.value.status.VALIDATED? && r.value.validatedBy == Some(p.email) && r.value.validatedAt == Some(at)
                && r.value.validatedSeq == Some(expected + 1)
    {
      var loaded := Load(p, sid, expected);
      if loaded.Err? {
        return Err(loaded.error);
      }
      var (log, sub) := loaded.value;
      var options := OptionsFor(cfg, p, sub.accountId);
      var result := ValidateValues(cfg.lib, cfg.spec, RawValues(sub.values), options);
      if result.Crashed? {
        return Err(Unexpected);
      }
      if !result.Ok() {
        return Err(Invalid(result.errors));
      }
      FoldedProvenance(log);
      FoldedPosition(log);
      var e := Event(sub.submissionId, sub.accountId, expected + 1, p.email, Internal, at, Validated);
      r := Append(p, log, expected, e);
    }
  }

  /** A review call answers and changes the store as `Decide` says for the log it finds. */
  predicate Reviewed(
      cfg: Config, before: Logs, p: Principal, sid: string, expected: int, cmd: Command, at: Time,
      after: Logs, r: Result<Submission, ServiceError>)
    requires cfg.spec.Loaded() && StoreOk(before)
  {
    if !p.role.Internal? then r == Err(NotPermitted) && after == before
    else
      match EventsAnswer(before, p, sid)
      case Err(error) => r == Err(Store(error)) && after == before
      case Ok(log) =>
        match Decide(cfg, p, log, expected, cmd, at)
        case Err(error) => r == Err(error) && after == before
        case Ok(e) => r == Ok(Apply(StateOf(log), e)) && after == before[sid := log + [e]] && SignedBy(e, p, at)
  }

  // ------------------------------------------------------------ staying valid

  /** A successful overwrite changes a correctable field to what the validator made of the new value. */
  lemma {:induction false} OverwriteMeaning(
      cfg: Config, p: Principal, log: seq<Event>, expected: int, field: string, raw: Raw, at: Time)
    requires cfg.spec.Loaded() && WellFormed(log) && Decide(cfg, p, log, expected, Overwrite(field, raw), at).Ok?
    ensures var e := Decide(cfg, p, log, expected, Overwrite(field, raw), at).value;
            && Correctable(cfg.spec, field) && p.IsInternal()
            && e.payload.FieldOverwritten? && e.payload.field == field
            && e.payload.prior == Lookup(StateOf(log).values, field)
            && Apply(StateOf(log), e).values == SetOrClear(StateOf(log).values, field, e.payload.newValue)
            && ValidateField(cfg.lib, cfg.spec.Field(field), raw, OptionsAt(OptionsFor(cfg, SYSTEM, log[0].accountId), field)) ==
               Accepted(e.payload.newValue)
  {
    hide ValidateField;
    FoldedProvenance(log);
    UnscopedOptions(cfg, p, log[0].accountId);
  }

  /** An overwrite that succeeds leaves the values releasable, and the owning account as it was. */
  lemma OverwriteKeepsReleasable(
      cfg: Config, p: Principal, log: seq<Event>, expected: int, field: string, raw: Raw, at: Time)
    requires ConfigOk(cfg) && WellFormed(log) && Decide(cfg, p, log, expected, Overwrite(field, raw), at).Ok?
    requires Releasable(cfg, log[0].accountId, StateOf(log).values)
    ensures var e := Decide(cfg, p, log, expected, Overwrite(field, raw), at).value;
            && Releasable(cfg, log[0].accountId, Apply(StateOf(log), e).values)
            && (cfg.spec.AccountField().Some? ==>
                  var name := cfg.spec.AccountField().value.name;
                  Lookup(Apply(StateOf(log), e).values, name) == Lookup(StateOf(log).values, name))
  {
    hide ValidateField, Decide, Apply, StateOf, AllStand;
    OverwriteMeaning(cfg, p, log, expected, field, raw, at);
    var options := OptionsFor(cfg, SYSTEM, log[0].accountId);
    var f := cfg.spec.Field(field);
    var v := Decide(cfg, p, log, expected, Overwrite(field, raw), at).value.payload.newValue;
    AcceptedStands(cfg, f, raw, OptionsAt(options, field), v);
    StandsAfterOverwrite(cfg, StateOf(log).values, options, f, v);
  }

  lemma AcceptedStands(cfg: Config, f: FieldSpec, raw: Raw, options: seq<string>, v: Option<Value>)
    requires ConfigOk(cfg) && f in cfg.spec.fields && ValidateField(cfg.lib, f, raw, options) == Accepted(v)
    ensures Stands(cfg.lib, f, v, options)
  {
    hide ValidateField;
    BlankField(cfg.lib, f);
    if v.Some? {
      FieldIdempotent(cfg.lib, f, raw, options, options);
    }
  }

  lemma StandsAfterOverwrite(cfg: Config, values: Values, options: Options, f: FieldSpec, v: Option<Value>)
    requires cfg.spec.Loaded() && AllStand(cfg.lib, cfg.spec, values, options)
    requires f in cfg.spec.fields && Stands(cfg.lib, f, v, OptionsAt(options, f.name))
    ensures AllStand(cfg.lib, cfg.spec, SetOrClear(values, f.name, v), options)
  {
    hide ValidateField;
    var after := SetOrClear(values, f.name, v);
    forall i | 0 <= i < |cfg.spec.fields|
      ensures Stands(cfg.lib, cfg.spec.fields[i], Lookup(after, cfg.spec.fields[i].name), OptionsAt(options, cfg.spec.fields[i].name))
    {
      if cfg.spec.fields[i].name != f.name {
        assert Lookup(after, cfg.spec.fields[i].name) == Lookup(values, cfg.spec.fields[i].name);
      }
    }
  }
}
