/** Customer intake: validate, store the PDFs, append one SUBMITTED event. */
module Intake {
  import opened Prelude
  import opened Numerals
  import opened Decimals
  import opened Events
  import opened Folding
  import opened Repository
  import opened Listing
  import opened SqlStore
  import opened Repositories
  import opened FieldSpecs
  import opened Validator
  import opened ReferenceData
  import opened Attachments
  import opened Services

  /** Python truth of a raw value. */
  predicate Truthy(raw: Raw) {
    match raw
    case Null => false
    case Str(text) => text != ""
    case Int(n) => n != 0
    case Bool(flag) => flag
    case Float(_, decimal) => decimal.Some? ==> decimal.value.coeff != 0
    case Date(_) => true
    case DateTime(_, _) => true
  }

  /** `_account_from`: the account the dropdown options are asked for, as typed. */
  function AccountFrom(cfg: Config, raws: Raws): Option<string> {
    match cfg.spec.AccountField()
    case None => None
    case Some(f) =>
      var raw := RawAt(raws, f.name);
      if Truthy(raw) then Some(RawText(cfg.lib, raw)) else None
  }

  /** Python takes null, the empty string, zero and False for no account at all; anything else is asked for as typed. */
  lemma AccountFromIff(cfg: Config, raws: Raws)
    requires cfg.spec.AccountField().Some?
    ensures var raw := RawAt(raws, cfg.spec.AccountField().value.name);
            AccountFrom(cfg, raws) ==
            if raw in {Null, Str(""), Int(0), Bool(false)} || (raw.Float? && raw.decimal.Some? && Signed(raw.decimal.value) == 0)
            then None else Some(RawText(cfg.lib, raw))
  {
  }

  /** `str()` of a stored value. */
  function ValueText(v: Value): string {
    match v
    case Text(s) => s
    case Number(n) => Numerals.IntText(n)
  }

  /** `_owned_account`: None when the request belongs to none of the caller's accounts. */
  function OwnedAccount(spec: FormSpec, p: Principal, cleaned: Values): Option<string> {
    match spec.AccountField()
    case None => None
    case Some(f) =>
      match Lookup(cleaned, f.name)
      case None => None
      case Some(v) => if ValueText(v) in p.accountIds then Some(ValueText(v)) else None
  }

  function IntakeOptions(cfg: Config, p: Principal, raws: Raws): Options
    requires cfg.spec.Loaded()
  {
    EnumOptions(cfg.reference, cfg.spec, p, AccountFrom(cfg, raws))
  }

  /** The account and the values an accepted request is stored with; None when it is refused. */
  function Admission(cfg: Config, p: Principal, raws: Raws, uploads: seq<Upload>): Option<(string, Values)>
    requires cfg.spec.Loaded()
  {
    if !p.IsScoped() || !Acceptable(cfg.policy, cfg.digest, uploads) then None
    else
      match CheckForm(cfg.lib, cfg.spec, raws, IntakeOptions(cfg, p, raws))
      case Crashed => None
      case Validation(values, errors) =>
        if errors != map[] then None
        else
          match OwnedAccount(cfg.spec, p, values)
          case None => None
          case Some(account) => Some((account, values))
  }

  /** The error tells which check refused the request; after all checks it is a failing upload or append. */
  ghost predicate Refused(cfg: Config, p: Principal, raws: Raws, uploads: seq<Upload>, error: ServiceError)
    requires cfg.spec.Loaded()
  {
    if !p.IsScoped() then error == NotPermitted
    else
      match CheckForm(cfg.lib, cfg.spec, raws, IntakeOptions(cfg, p, raws))
      case Crashed => error == Unexpected
      case Validation(values, errors) =>
        var acceptable := Acceptable(cfg.policy, cfg.digest, uploads);
        if errors != map[] || !acceptable then
          && error.InvalidRequest? && error.errors == errors && (error.attachmentErrors == map[] <==> acceptable)
          && Reports(cfg.policy, cfg.digest, uploads, error.attachmentErrors)
        else if OwnedAccount(cfg.spec, p, values).None? then error == NotPermitted
        else error == Unexpected
  }

  function SubmittedEvent(sid: string, account: string, p: Principal, values: Values, metas: seq<AttachmentMeta>, at: Time): Event {
    Event(sid, account, 1, p.email, Customer, at, Submitted(values, metas))
  }

  datatype IntakeResult = IntakeResult(submission: Submission, warnings: seq<string>)

  function Warnings(metas: seq<AttachmentMeta>): seq<string> {
    if |metas| == 0 then []
    else
      var m := metas[|metas| - 1];
      Warnings(metas[..|metas| - 1]) +
      if m.hasTextLayer then [] else [m.originalFilename + NO_TEXT_LAYER]
  }

  const NO_TEXT_LAYER := " has no text layer; the automated cross-check cannot read it"

  /** Every attachment without a text layer is warned of, and no other. */
  lemma {:induction false} WarningsIff(metas: seq<AttachmentMeta>, w: string)
    ensures w in Warnings(metas) <==> exists m <- metas :: !m.hasTextLayer && w == m.originalFilename + NO_TEXT_LAYER
  {
    if |metas| > 0 {
      var init, last := metas[..|metas| - 1], metas[|metas| - 1];
      WarningsIff(init, w);
      assert metas == init + [last];
      assert forall m :: m in metas <==> m in init || m == last;
    }
  }

  const LACKS_TEXT := (m: AttachmentMeta) => !m.hasTextLayer

  /** One warning for each. */
  lemma {:induction false} WarningsCount(metas: seq<AttachmentMeta>)
    ensures |Warnings(metas)| == |IndicesWhere(metas, LACKS_TEXT)|
  {
    if |metas| > 0 {
      WarningsCount(metas[..|metas| - 1]);
      IndicesOneMore(metas, LACKS_TEXT);
    }
  }

  /**
   A request is admitted exactly when a customer makes it, its attachments are acceptable, its values pass, and the account
   they name is the caller's.
   */
  lemma AdmissionIff(cfg: Config, p: Principal, raws: Raws, uploads: seq<Upload>, account: string, values: Values)
    requires cfg.spec.Loaded()
    ensures Admission(cfg, p, raws, uploads) == Some((account, values)) <==>
            && p.role.Customer? && Acceptable(cfg.policy, cfg.digest, uploads)
            && CheckForm(cfg.lib, cfg.spec, raws, IntakeOptions(cfg, p, raws)) == Validation(values, map[])
            && cfg.spec.AccountField().Some? && account in p.accountIds
            && Lookup(values, cfg.spec.AccountField().value.name) == Some(Text(account))
  {
    hide CheckForm, Acceptable, IntakeOptions, IntText;
    if Admission(cfg, p, raws, uploads) == Some((account, values)) {
      AccountIsStored(cfg, p, raws, uploads, account, values);
    }
  }

  // ------------------------------------------------------------ stored objects

  /** `metas` describe the first `|metas|` uploads, numbered from 1, at their own paths. */
  predicate Describe(root: string, sid: string, account: string, metas: seq<AttachmentMeta>, uploads: seq<Upload>) {
    && |metas| <= |uploads|
    && forall i :: 0 <= i < |metas| ==>
         && metas[i].submissionId == sid && metas[i].accountId == account && metas[i].seqNo == i + 1
         && metas[i].docType == uploads[i].docType && metas[i].originalFilename == uploads[i].filename
         && metas[i].storagePath == PathOf(root, account, sid, uploads[i].docType, i + 1)
         && metas[i].sizeBytes == |uploads[i].content|
  }

  /** The objects after storing the described uploads. */
  function WithStored(objects: map<string, Bytes>, metas: seq<AttachmentMeta>, uploads: seq<Upload>): map<string, Bytes>
    requires |metas| <= |uploads|
  {
    if |metas| == 0 then objects
    else
      var n := |metas| - 1;
      WithStored(objects, metas[..n], uploads)[metas[n].storagePath := uploads[n].content]
  }

  /** No object lies in any directory of a submission with this id yet. */
  ghost predicate Unused(objects: map<string, Bytes>, root: string, sid: string) {
    forall account, path :: path in objects ==> !(Directory(root, account, sid) <= path)
  }

  lemma {:induction false} StoredKeys(objects: map<string, Bytes>, metas: seq<AttachmentMeta>, uploads: seq<Upload>)
    requires |metas| <= |uploads|
    ensures WithStored(objects, metas, uploads).Keys == objects.Keys + Paths(metas)
    ensures forall path <- objects :: path !in Paths(metas) ==> WithStored(objects, metas, uploads)[path] == objects[path]
  {
    if |metas| > 0 {
      var n := |metas| - 1;
      StoredKeys(objects, metas[..n], uploads);
      assert Paths(metas) == Paths(metas[..n]) + {metas[n].storagePath};
    }
  }

  lemma FreshPaths(
      objects: map<string, Bytes>, root: string, sid: string, account: string, metas: seq<AttachmentMeta>, uploads: seq<Upload>)
    requires Unused(objects, root, sid) && Describe(root, sid, account, metas, uploads)
    ensures Paths(metas) !! objects.Keys
  {
    forall i | 0 <= i < |metas|
      ensures metas[i].storagePath !in objects
    {
      assert Directory(root, account, sid) <= metas[i].storagePath;
    }
  }

  /** Taking the stored paths away again gives back the objects as they were. */
  lemma DiscardRestores(objects: map<string, Bytes>, metas: seq<AttachmentMeta>, uploads: seq<Upload>)
    requires |metas| <= |uploads| && Paths(metas) !! objects.Keys
    ensures WithStored(objects, metas, uploads) - Paths(metas) == objects
  {
    StoredKeys(objects, metas, uploads);
  }

  lemma PathsApart(
      root: string, sid: string, account: string, metas: seq<AttachmentMeta>, uploads: seq<Upload>, i: nat, j: nat)
    requires Describe(root, sid, account, metas, uploads) && i < j < |metas|
    ensures metas[i].storagePath != metas[j].storagePath
  {
    hide PathOf;
    if metas[i].storagePath == metas[j].storagePath {
      PathsDistinct(root, account, sid, uploads[i].docType, i + 1, uploads[j].docType, j + 1);
    }
  }

  /** Every stored upload keeps its own content: no two share a path. */
  lemma {:induction false} StoredContent(
      objects: map<string, Bytes>, root: string, sid: string, account: string, metas: seq<AttachmentMeta>, uploads: seq<Upload>)
    requires Describe(root, sid, account, metas, uploads)
    ensures forall i :: 0 <= i < |metas| ==>
              Lookup(WithStored(objects, metas, uploads), metas[i].storagePath) == Some(uploads[i].content)
  {
    hide PathOf;
    if |metas| > 0 {
      var n := |metas| - 1;
      StoredContent(objects, root, sid, account, metas[..n], uploads);
      forall i | 0 <= i < n
        ensures metas[..n][i] == metas[i] && metas[i].storagePath != metas[n].storagePath
      {
        PathsApart(root, sid, account, metas, uploads, i, n);
      }
    }
  }

  lemma DescribeOneMore(
      root: string, sid: string, account: string, metas: seq<AttachmentMeta>, meta: AttachmentMeta, uploads: seq<Upload>)
    requires Describe(root, sid, account, metas, uploads) && |metas| < |uploads|
    requires Describe(root, sid, account, [], uploads)
    requires var i, u := |metas|, uploads[|metas|];
             && meta.submissionId == sid && meta.accountId == account && meta.seqNo == i + 1
             && meta.docType == u.docType && meta.originalFilename == u.filename
             && meta.storagePath == PathOf(root, account, sid, u.docType, i + 1) && meta.sizeBytes == |u.content|
    ensures Describe(root, sid, account, metas + [meta], uploads)
  {
    hide PathOf;
  }

  /** The described objects lie in the submission's own directory. */
  lemma InOwnDirectory(
      root: string, sid: string, account: string, metas: seq<AttachmentMeta>, uploads: seq<Upload>, i: nat)
    requires Describe(root, sid, account, metas, uploads) && i < |metas|
    ensures Directory(root, account, sid) <= metas[i].storagePath
    ensures metas[i].accountId == account && metas[i].submissionId == sid
  {
  }

  predicate AllStored(outcomes: seq<Inspection>) {
    forall i :: 0 <= i < |outcomes| ==> outcomes[i].Info?
  }

  /** What becomes of the append: it works, raises with nothing committed, or commits and raises all the same. */
  datatype AppendFate = Works | Breaks | Loses

  /** The event of an accepted request, whose attachments are the uploads, each at its own path. */
  predicate IsSubmission(
      cfg: Config, p: Principal, raws: Raws, uploads: seq<Upload>, sid: string, at: Time, root: string, e: Event)
    requires cfg.spec.Loaded()
  {
    && e.payload.Submitted? && e.submissionId == sid && e.accountId in p.accountIds && e.seqNo == 1
    && e.actor == p.email && e.actorRole.Customer? && e.occurredAt == at
    && Admission(cfg, p, raws, uploads) == Some((e.accountId, e.payload.values))
    && |e.payload.attachments| == |uploads| && Describe(root, sid, e.accountId, e.payload.attachments, uploads)
  }

  /** The descriptions record the digest, what the inspection found, and who uploaded. */
  predicate Inspected(
      metas: seq<AttachmentMeta>, uploads: seq<Upload>, outcomes: seq<Inspection>, digest: Bytes -> string, email: string)
  {
    && |metas| <= |uploads| && |metas| <= |outcomes|
    && forall i :: 0 <= i < |metas| ==>
         && outcomes[i].Info? && metas[i].pageCount == outcomes[i].pageCount && metas[i].hasTextLayer == outcomes[i].hasTextLayer
         && metas[i].uploadedAt == outcomes[i].uploadedAt && metas[i].uploadedBy == email
         && metas[i].sha256 == digest(uploads[i].content)
  }

  /**
   All or nothing, except that an append which commits and raises leaves the submission without its objects. An error tells
   which check refused the request.
   */
  ghost predicate Submits(
      cfg: Config, p: Principal, raws: Raws, uploads: seq<Upload>, sid: string, at: Time, outcomes: seq<Inspection>,
      fate: AppendFate, root: string, digest: Bytes -> string, logs: Logs, objects: map<string, Bytes>, logs': Logs, objects': map<string, Bytes>,
      r: Result<IntakeResult, ServiceError>)
    requires cfg.spec.Loaded()
  {
    if Admission(cfg, p, raws, uploads).Some? && AllStored(outcomes) && !fate.Breaks? then
      && sid in logs' && |logs'[sid]| == 1
      && var e := logs'[sid][0];
         && IsSubmission(cfg, p, raws, uploads, sid, at, root, e) && logs' == logs[sid := [e]]
         && Inspected(e.payload.attachments, uploads, outcomes, digest, p.email)
         && if fate.Works? then
              && objects' == WithStored(objects, e.payload.attachments, uploads)
              && r == Ok(IntakeResult(Start(e), Warnings(e.payload.attachments)))
            else
              objects' == objects && r == Err(Unexpected)
    else
      r.Err? && logs' == logs && objects' == objects && Refused(cfg, p, raws, uploads, r.error)
  }

  lemma AdmittedFails(cfg: Config, p: Principal, raws: Raws, uploads: seq<Upload>)
    requires cfg.spec.Loaded() && Admission(cfg, p, raws, uploads).Some?
    ensures Refused(cfg, p, raws, uploads, Unexpected)
  {
    hide CheckForm, Acceptable, IntakeOptions, ValueText;
  }

  lemma CreateAccepted(logs: Logs, p: Principal, e: Event)
    requires StoreOk(logs) && e.submissionId !in logs && e.seqNo == 1 && e.payload.Submitted? && p.Sees(e.accountId)
    ensures AppendAnswer(logs, p, e.submissionId, 0, e).Ok?
    ensures AfterAppend(logs, p, e.submissionId, 0, e) == logs[e.submissionId := [e]]
  {
    assert [] + [e] == [e];
  }

  class IntakeService {
    const cfg: Config
    const repo: SubmissionRepository
    const store: AttachmentStore

    constructor (cfg: Config, repo: SubmissionRepository, store: AttachmentStore)
      ensures this.cfg == cfg && this.repo == repo && this.store == store
    {
      this.cfg, this.repo, this.store := cfg, repo, store;
    }

    /**
     `sid` is the freshly generated id; `outcomes` says what becomes of each upload inside the attachment store, and `fate`
     of the append.
     */
    method Submit(
        p: Principal, raws: Raws, uploads: seq<Upload>, sid: string, at: Time, outcomes: seq<Inspection>, fate: AppendFate)
      returns (r: Result<IntakeResult, ServiceError>)
      requires repo.Valid() && cfg.spec.Loaded() && |outcomes| == |uploads|
      requires sid !in repo.Logs() && Unused(store.objects, store.root, sid)
      modifies repo.Objects(), store
      ensures repo.Valid()
      ensures Submits(
                cfg, p, raws, uploads, sid, at, outcomes, fate, store.root, store.digest, old(repo.Logs()), old(store.objects),
                repo.Logs(), store.objects, r)
    {
      hide ValidateField, CheckFields, PathOf, Describe, WithStored, EnumOptions, AccountFrom, Represents, StoreOk, WellFormed;
      if !p.IsScoped() {
        return Err(NotPermitted);
      }
      var result := ValidateValues(cfg.lib, cfg.spec, raws, IntakeOptions(cfg, p, raws));
      if result.Crashed? {
        return Err(Unexpected);
      }
      var attachmentErrors := CheckAttachments(cfg.policy, cfg.digest, uploads);
      if result.errors != map[] || attachmentErrors != map[] {
        return Err(InvalidRequest(result.errors, attachmentErrors));
      }
      var owned := OwnedAccount(cfg.spec, p, result.values);
      if owned.None? {
        return Err(NotPermitted);
      }
      r := Persist(p, raws, uploads, sid, owned.value, result.values, at, outcomes, fate);
    }

    /** Stores the uploads and appends the event; on any exception what was stored is removed. */
    method Persist(
        p: Principal, ghost raws: Raws, uploads: seq<Upload>, sid: string, account: string, values: Values, at: Time,
        outcomes: seq<Inspection>, fate: AppendFate)
      returns (r: Result<IntakeResult, ServiceError>)
      requires repo.Valid() && cfg.spec.Loaded() && |outcomes| == |uploads|
      requires sid !in repo.Logs() && Unused(store.objects, store.root, sid)
      requires Admission(cfg, p, raws, uploads) == Some((account, values))
      modifies repo.Objects(), store
      ensures repo.Valid()
      ensures Submits(
                cfg, p, raws, uploads, sid, at, outcomes, fate, store.root, store.digest, old(repo.Logs()), old(store.objects),
                repo.Logs(), store.objects, r)
    {
      hide Admission, PathOf, Describe, WithStored, Represents, StoreOk, WellFormed, Refused, AllStored, Warnings, Unused, Inspected;
      AdmissionOwned(cfg, p, raws, uploads);
      AdmittedFails(cfg, p, raws, uploads);
      var metas, failed := StoreAll(p, sid, account, uploads, outcomes);
      if !failed {
        var e := SubmittedEvent(sid, account, p, values, metas, at);
        var sub := Record(p, e, fate);
        if sub.Some? {
          return Ok(IntakeResult(sub.value, Warnings(metas)));
        }
      }
      Discard(p, metas, uploads, old(store.objects), sid, account);
      return Err(Unexpected);
    }

    /** The one append, and the fold of the event just appended; None when the append raises. */
    method Record(p: Principal, e: Event, fate: AppendFate) returns (sub: Option<Submission>)
      requires repo.Valid() && e.submissionId !in repo.Logs() && e.seqNo == 1 && e.payload.Submitted? && p.Sees(e.accountId)
      modifies repo.Objects()
      ensures repo.Valid()
      ensures repo.Logs() == if fate.Breaks? then old(repo.Logs()) else old(repo.Logs())[e.submissionId := [e]]
      ensures sub == if fate.Works? then Some(Start(e)) else None
    {
      hide Represents, AppendAnswer, AfterAppend, StoreOk;
      if fate.Breaks? {
        return None;
      }
      CreateAccepted(repo.Logs(), p, e);
      var appended := repo.AppendEvent(p, e.submissionId, 0, e);
      if fate.Loses? {
        return None;
      }
      WellFormedSingle(e);
      FoldSucceedsIff([e]);
      var r := FoldEvents([e]);
      return Some(r.value);
    }

    /** The upload loop; it stops at the first exception. */
    method StoreAll(p: Principal, sid: string, account: string, uploads: seq<Upload>, outcomes: seq<Inspection>)
      returns (metas: seq<AttachmentMeta>, failed: bool)
      requires |outcomes| == |uploads| && p.Sees(account)
      modifies store
      ensures Describe(store.root, sid, account, metas, uploads)
      ensures store.objects == WithStored(old(store.objects), metas, uploads)
      ensures Inspected(metas, uploads, outcomes, store.digest, p.email)
      ensures failed <==> !AllStored(outcomes)
      ensures !failed ==> |metas| == |uploads|
    {
      hide PathOf;
      metas, failed := [], false;
      var i := 0;
      while i < |uploads|
        invariant 0 <= i == |metas| <= |uploads|
        invariant Describe(store.root, sid, account, metas, uploads)
        invariant store.objects == WithStored(old(store.objects), metas, uploads)
        invariant Inspected(metas, uploads, outcomes, store.digest, p.email)
        invariant forall j :: 0 <= j < i ==> outcomes[j].Info?
      {
        var meta := store.Put(p, sid, account, i + 1, uploads[i], outcomes[i]);
        if meta.None? {
          return metas, true;
        }
        assert (metas + [meta.value])[..i] == metas;
        DescribeOneMore(store.root, sid, account, metas, meta.value, uploads);
        metas := metas + [meta.value];
        i := i + 1;
      }
    }

    /** `_discard`: removes what was stored. */
    method Discard(
        p: Principal, metas: seq<AttachmentMeta>, ghost uploads: seq<Upload>, ghost before: map<string, Bytes>, ghost sid: string,
        ghost account: string)
      requires p.Sees(account) && Describe(store.root, sid, account, metas, uploads)
      requires Unused(before, store.root, sid) && store.objects == WithStored(before, metas, uploads)
      modifies store
      ensures store.objects == before
    {
      hide PathOf, WithStored, Directory;
      ghost var stored := store.objects;
      for i := 0 to |metas|
        invariant store.objects == stored - Paths(metas[..i])
      {
        InOwnDirectory(store.root, sid, account, metas, uploads, i);
        var ok := store.Delete(p, metas[i]);
        assert Paths(metas[..i + 1]) == Paths(metas[..i]) + {metas[i].storagePath};
      }
      assert metas[..|metas|] == metas;
      FreshPaths(before, store.root, sid, account, metas, uploads);
      DiscardRestores(before, metas, uploads);
    }
  }

  lemma AdmissionOwned(cfg: Config, p: Principal, raws: Raws, uploads: seq<Upload>)
    requires cfg.spec.Loaded() && Admission(cfg, p, raws, uploads).Some?
    ensures p.IsScoped() && Admission(cfg, p, raws, uploads).value.0 in p.accountIds
  {
    hide CheckForm, Acceptable, IntakeOptions, ValueText;
  }

  lemma WellFormedSingle(e: Event)
    requires e.seqNo == 1 && e.payload.Submitted?
    ensures WellFormed([e]) && StateOf([e]) == Start(e)
  {
  }

  // ----------------------------------------- what is accepted can be released

  /** The account value stored for an accepted request is its owning account, stripped. */
  lemma AccountIsStored(cfg: Config, p: Principal, raws: Raws, uploads: seq<Upload>, account: string, values: Values)
    requires cfg.spec.Loaded() && Admission(cfg, p, raws, uploads) == Some((account, values))
    ensures var f := cfg.spec.AccountField().value;
            && cfg.spec.AccountField().Some? && account in p.accountIds
            && Lookup(values, f.name) == Some(Text(account))
            && account == Strip(RawText(cfg.lib, RawAt(raws, f.name))) && !IsBlank(RawAt(raws, f.name))
  {
    hide Strip, IntText, ValidateField, RawText;
    var f := cfg.spec.AccountField().value;
    var i :| 0 <= i < |cfg.spec.fields| && cfg.spec.fields[i] == f;
    AcceptedFormNamesKnown(cfg.lib, cfg.spec, raws, IntakeOptions(cfg, p, raws));
    FieldsContribute(cfg.lib, cfg.spec.fields, raws, IntakeOptions(cfg, p, raws), map[]);
    assert Contributes(cfg.lib, f, raws, IntakeOptions(cfg, p, raws), values, map[]);
    EnumStored(cfg.lib, f, RawAt(raws, f.name), OptionsAt(IntakeOptions(cfg, p, raws), f.name));
  }

  lemma EnumStored(lib: Library, f: FieldSpec, raw: Raw, options: seq<string>)
    requires f.kind.ENUM?
    ensures var r := ValidateField(lib, f, raw, options);
            r.Accepted? && r.value.Some? ==> r.value == Some(Text(Strip(RawText(lib, raw)))) && !IsBlank(raw)
  {
    hide Strip, RawText;
  }

  /** Accepted values are releasable if the options were those of the owning account, or of no account of the caller's. */
  lemma AdmittedIsReleasable(
      cfg: Config, p: Principal, raws: Raws, uploads: seq<Upload>, account: string, values: Values)
    requires ConfigOk(cfg) && Admission(cfg, p, raws, uploads) == Some((account, values))
    requires AsksFor(p, AccountFrom(cfg, raws), account)
    ensures Releasable(cfg, account, values)
  {
    hide ValidateField, EnumOptions;
    var few, many := IntakeOptions(cfg, p, raws), OptionsFor(cfg, SYSTEM, account);
    forall i, o | 0 <= i < |cfg.spec.fields| && o in OptionsAt(few, cfg.spec.fields[i].name)
      ensures o in OptionsAt(many, cfg.spec.fields[i].name)
    {
      OptionsWiden(cfg.reference, cfg.spec, p, AccountFrom(cfg, raws), SYSTEM, account, i, o);
    }
    FormIdempotent(cfg.lib, cfg.spec, raws, few, many);
    PassUnchangedIff(cfg.lib, cfg.spec, values, many);
  }

  /** None of the caller's account ids is another one with blanks around it. */
  predicate PlainAccounts(p: Principal) {
    forall a <- p.accountIds :: Strip(a) != "" && Strip(a) in p.accountIds ==> Strip(a) == a
  }

  /** For such callers every accepted request is releasable. */
  lemma PlainAccountsRelease(
      cfg: Config, p: Principal, raws: Raws, uploads: seq<Upload>, account: string, values: Values)
    requires ConfigOk(cfg) && PlainAccounts(p) && Admission(cfg, p, raws, uploads) == Some((account, values))
    ensures Releasable(cfg, account, values)
  {
    hide Strip, Admission;
    AccountIsStored(cfg, p, raws, uploads, account, values);
    ShownText(cfg.lib, RawAt(raws, cfg.spec.AccountField().value.name));
    AdmittedIsReleasable(cfg, p, raws, uploads, account, values);
  }

  // ------------------------------------------ and what happens to the others

  const ACCOUNT := FieldSpec("account_id", ENUM, "account", 10, true, None, None, None, None, None, Ref("my_accounts"))
  const SKU := FieldSpec("sku_code", ENUM, "account", 20, true, None, None, None, None, None, Ref("skus_for_account"))
  const TWO_FIELDS := FormSpec(["account"], [ACCOUNT, SKU])

  /** One account, and one SKU of an account whose id only differs by blanks. */
  function Unplain(lib: Library, a: string): Config {
    Config(lib, TWO_FIELDS, Reference([Account(Strip(a), "", "")], [Sku(a, "K", "")], []), Policy([]), (b: Bytes) => "", 1, Memory)
  }

  function Typed(a: string): Raws {
    map["account_id" := Str(a), "sku_code" := Str("K")]
  }

  function Stored(a: string): Values {
    map["account_id" := Text(Strip(a)), "sku_code" := Text("K")]
  }

  lemma {:induction false} UnplainOptions(p: Principal, lib: Library, a: string, asked: string)
    requires asked == a ==> p.Sees(a)
    requires p.Sees(Strip(a)) && (asked == a || asked == Strip(a))
    ensures var o := EnumOptions(Unplain(lib, a).reference, TWO_FIELDS, p, Some(asked));
            && OptionsAt(o, "account_id") == [Strip(a)]
            && OptionsAt(o, "sku_code") == if asked == a then ["K"] else []
  {
    hide EnumOptions, Strip;
    var r := Unplain(lib, a).reference;
    OptionsOfField(r, TWO_FIELDS, p, Some(asked), 0);
    OptionsOfField(r, TWO_FIELDS, p, Some(asked), 1);
    SelectOne(r.accounts[0], (x: Account) => x.accountId in p.accountIds);
    SelectOne(r.skus[0], (x: Sku) => x.accountId == asked);
    assert r.MyAccounts(p) == r.accounts;
    assert ValuesOf(AccountChoices(r.accounts)) == [Strip(a)];
    assert r.SkusForAccount(p, asked) == Some(if asked == a then r.skus else []);
    assert ValuesOf(SkuChoices(r.skus)) == ["K"];
  }

  lemma SelectOne<T(!new)>(x: T, keep: T -> bool)
    ensures Select([x], keep) == if keep(x) then [x] else []
  {
    assert [x][1..] == [];
  }

  lemma TwoFieldsChecked(lib: Library, a: string, options: Options)
    requires Strip(a) != "" && Strip(a) in OptionsAt(options, "account_id") && "K" in OptionsAt(options, "sku_code")
    ensures CheckForm(lib, TWO_FIELDS, Typed(a), options) == Validation(Stored(a), map[])
  {
    assert TWO_FIELDS.fields[..1] == [ACCOUNT] && [ACCOUNT][..0] == [];
    assert forall name <- Typed(a) :: TWO_FIELDS.Names(name) by {
      assert TWO_FIELDS.fields[0].name == "account_id" && TWO_FIELDS.fields[1].name == "sku_code";
    }
    assert UnknownErrors(Typed(a), TWO_FIELDS) == map[];
    OneEnumChecked(lib, ACCOUNT, a, OptionsAt(options, "account_id"));
    assert Strip("K") == "K";
    OneEnumChecked(lib, SKU, "K", OptionsAt(options, "sku_code"));
    TwoSteps(lib, Typed(a), options, Text(Strip(a)), Text("K"));
  }

  lemma OneEnumChecked(lib: Library, f: FieldSpec, text: string, options: seq<string>)
    requires f.kind.ENUM? && f.StaticOptions() == [] && Strip(text) != "" && Strip(text) in options
    ensures ValidateField(lib, f, Str(text), options) == Accepted(Some(Text(Strip(text))))
  {
    hide Strip;
  }

  lemma TwoSteps(lib: Library, raws: Raws, options: Options, v: Value, w: Value)
    requires ValidateField(lib, ACCOUNT, RawAt(raws, "account_id"), OptionsAt(options, "account_id")) == Accepted(Some(v))
    requires ValidateField(lib, SKU, RawAt(raws, "sku_code"), OptionsAt(options, "sku_code")) == Accepted(Some(w))
    ensures CheckFields(lib, [ACCOUNT, SKU], raws, options, map[]) == Validation(map["account_id" := v, "sku_code" := w], map[])
  {
    hide ValidateField;
    assert [ACCOUNT, SKU][..1] == [ACCOUNT] && [ACCOUNT][..0] == [];
    assert CheckFields(lib, [ACCOUNT], raws, options, map[]) == Validation(map["account_id" := v], map[]);
  }

  lemma LetterIsPlain()
    ensures Strip("A") == "A"
  {
  }

  /** A plain account's request is accepted. */
  lemma PlainRequestAccepted(p: Principal, lib: Library, a: string)
    requires LibraryOk(lib) && p.IsScoped() && a in p.accountIds && a != "" && Strip(a) == a
    ensures ConfigOk(Unplain(lib, a)) && Admission(Unplain(lib, a), p, Typed(a), []) == Some((a, Stored(a)))
  {
    hide ValidateField, EnumOptions, Strip;
    var cfg := Unplain(lib, a);
    assert cfg.spec.AccountField() == Some(ACCOUNT);
    assert AccountFrom(cfg, Typed(a)) == Some(a);
    UnplainOptions(p, lib, a, a);
    TwoFieldsChecked(lib, a, IntakeOptions(cfg, p, Typed(a)));
  }

  /** A caller that also owns an id with blanks around it can have a request accepted that nobody can release. */
  lemma UnplainAccountsGetStuck(p: Principal, lib: Library, a: string)
    requires LibraryOk(lib) && p.IsScoped() && a in p.accountIds && Strip(a) in p.accountIds && Strip(a) != "" && Strip(a) != a
    ensures var cfg := Unplain(lib, a);
            && ConfigOk(cfg)
            && Admission(cfg, p, Typed(a), []) == Some((Strip(a), Stored(a)))
            && !Releasable(cfg, Strip(a), Stored(a))
  {
    hide ValidateField, EnumOptions, Strip;
    var cfg := Unplain(lib, a);
    assert cfg.spec.AccountField() == Some(ACCOUNT);
    assert a != "" by { StripOfBlank(); }
    assert AccountFrom(cfg, Typed(a)) == Some(a);
    UnplainOptions(p, lib, a, a);
    TwoFieldsChecked(lib, a, IntakeOptions(cfg, p, Typed(a)));
    UnplainOptions(SYSTEM, lib, a, Strip(a));
    NotOfferedFails(lib, OptionsFor(cfg, SYSTEM, Strip(a)), Stored(a));
  }

  lemma StripOfBlank()
    ensures Strip("") == ""
  {
  }

  lemma NotOfferedFails(lib: Library, options: Options, values: Values)
    requires OptionsAt(options, "sku_code") == [] && Lookup(values, "sku_code") == Some(Text("K"))
    ensures !AllStand(lib, TWO_FIELDS, values, options)
  {
    assert TWO_FIELDS.fields[1] == SKU;
    assert !Stands(lib, SKU, Some(Text("K")), []);
  }

  /** Whatever is accepted under this configuration can be released. */
  ghost predicate AcceptedCanBeReleased(cfg: Config, p: Principal, raws: Raws, uploads: seq<Upload>) {
    ConfigOk(cfg) ==>
      match Admission(cfg, p, raws, uploads)
      case None => true
      case Some(admitted) => Releasable(cfg, admitted.0, admitted.1)
  }

  /** Everything a customer gets accepted can be released, in every configuration, exactly when its account ids are plain. */
  lemma PlainIffReleasable(p: Principal, lib: Library)
    requires LibraryOk(lib) && p.IsScoped()
    ensures PlainAccounts(p) <==> forall cfg, raws, uploads :: AcceptedCanBeReleased(cfg, p, raws, uploads)
  {
    hide Strip, Admission, Releasable;
    if PlainAccounts(p) {
      forall cfg, raws, uploads
        ensures AcceptedCanBeReleased(cfg, p, raws, uploads)
      {
        if ConfigOk(cfg) && Admission(cfg, p, raws, uploads).Some? {
          var (account, values) := Admission(cfg, p, raws, uploads).value;
          PlainAccountsRelease(cfg, p, raws, uploads, account, values);
        }
      }
    } else {
      var a :| a in p.accountIds && Strip(a) != "" && Strip(a) in p.accountIds && Strip(a) != a;
      UnplainAccountsGetStuck(p, lib, a);
      assert !AcceptedCanBeReleased(Unplain(lib, a), p, Typed(a), []);
    }
  }
}
