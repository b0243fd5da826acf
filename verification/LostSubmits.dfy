/** A submission whose SUBMITTED event went in with the answer lost: intake takes it for refused and removes its PDFs. */
module LostSubmits {
  import opened Prelude
  import opened Numerals
  import opened Events
  import opened Folding
  import opened Repository
  import opened Validator
  import opened ReferenceData
  import opened Attachments
  import opened Services
  import opened Intake
  import opened Executors

  /** What the insert's answer makes of the append: only 1 is taken for success. */
  function FateOf(e: Event, after: seq<Event>, answer: Result<int, Fault>): AppendFate {
    if answer == Ok(1) then Works else if e in after then Loses else Breaks
  }

  /** The submission references an object that is not there. */
  predicate Dangling(logs: Logs, objects: map<string, Bytes>, sid: string) {
    sid in logs && WellFormed(logs[sid]) && !(Paths(StateOf(logs[sid]).attachments) <= objects.Keys)
  }

  /**
   An accepted request with PDFs ends as a submission without them exactly when an execution of its insert commits unseen;
   then it has none of them, and its customer is told that the submit failed.
   */
  lemma SubmitLosesPdfsIff(
      cfg: Config, p: Principal, raws: Raws, uploads: seq<Upload>, sid: string, at: Time, outcomes: seq<Inspection>,
      root: string, logs: Logs, objects: map<string, Bytes>, logs': Logs, objects': map<string, Bytes>,
      r: Result<IntakeResult, ServiceError>,
      rows: seq<Event>, script: Script, n: nat, k: nat, e: Event, after: seq<Event>, answer: Result<int, Fault>)
    requires cfg.spec.Loaded() && IsSubmission(cfg, p, raws, uploads, sid, at, root, e)
    requires |uploads| > 0 && AllStored(outcomes) && sid !in logs && Unused(objects, root, sid)
    requires Executed(rows, script, n, k, e, after, answer) && KeysUnique(rows) && OnlyOurs(rows, script, n, k, e)
    requires Submits(
               cfg, p, raws, uploads, sid, at, outcomes, FateOf(e, after, answer), root, cfg.digest, logs, objects,
               logs', objects', r)
    ensures Dangling(logs', objects', sid) <==> LosesAnswer(rows, script, n, k + 1, e)
    ensures Dangling(logs', objects', sid) ==> r.Err? && Paths(StateOf(logs'[sid]).attachments) !! objects'.Keys
  {
    hide Executed, KeysUnique, OnlyOurs, LosesAnswer, Admission, Describe, WithStored, Refused, Unused, Paths, AllStored, Inspected;
    CommitsUntoldIff(rows, script, n, k, e, after, answer);
    if !FateOf(e, after, answer).Breaks? {
      var stored := logs'[sid][0];
      WellFormedSingle(stored);
      assert logs'[sid] == [stored];
      StoredKeys(objects, stored.payload.attachments, uploads);
      FreshPaths(objects, root, sid, stored.accountId, stored.payload.attachments, uploads);
      SomePath(stored.payload.attachments);
    }
  }

  lemma SomePath(metas: seq<AttachmentMeta>)
    requires |metas| > 0
    ensures Paths(metas) != {}
  {
    assert metas[0].storagePath in Paths(metas);
  }

  // ------------------------------------------------------------- it can happen

  const ONE_PDF := [Upload("pod", "pod.pdf", PDF_MAGIC)]

  /** A system whose requests come with one PDF. */
  function WithPdf(lib: Library): Config {
    Unplain(lib, "A").(policy := Policy([DocType("pod", true, 1)]))
  }

  const CUSTOMER := Principal("", {"A"}, Customer)

  lemma OnePdfAcceptable(lib: Library)
    ensures Acceptable(WithPdf(lib).policy, WithPdf(lib).digest, ONE_PDF)
  {
    assert ONE_PDF[..0] == [];
    assert CountOf(ONE_PDF, "pod") == 1;
  }

  lemma OnePdfAdmitted(lib: Library)
    requires LibraryOk(lib)
    ensures WithPdf(lib).spec.Loaded() && Admission(WithPdf(lib), CUSTOMER, Typed("A"), ONE_PDF) == Some(("A", Stored("A")))
  {
    hide CheckForm, EnumOptions, Strip;
    assert Strip("A") == "A" by { LetterIsPlain(); }
    PlainRequestAccepted(CUSTOMER, lib, "A");
    OnePdfAcceptable(lib);
  }

  const POD := AttachmentMeta("s", "A", "pod", 1, "pod.pdf", PathOf("", "A", "s", "pod", 1), "", |PDF_MAGIC|, 1, true, 0, "")

  const LOST := SubmittedEvent("s", "A", CUSTOMER, Stored("A"), [POD], 0)

  /** A customer submits one PDF, the insert commits and fails, the retry answers 0: the request is there, the PDF is not. */
  lemma LostSubmitHappens(lib: Library, fault: Fault)
    requires LibraryOk(lib)
    ensures Executed([], FailsOnce(fault), 0, 2, LOST, [LOST], Ok(0))
    ensures WithPdf(lib).spec.Loaded()
    ensures Submits(
              WithPdf(lib), CUSTOMER, Typed("A"), ONE_PDF, "s", 0, [Info(1, true, 0)], FateOf(LOST, [LOST], Ok(0)), "",
              WithPdf(lib).digest, map[], map[], map["s" := [LOST]], map[], Err(Unexpected))
    ensures Dangling(map["s" := [LOST]], map[], "s")
  {
    hide Admission, Executed, Strip;
    LosesAnswerExample(LOST, fault);
    OnePdfAdmitted(lib);
    assert IsSubmission(WithPdf(lib), CUSTOMER, Typed("A"), ONE_PDF, "s", 0, "", LOST);
    assert Submits(
        WithPdf(lib), CUSTOMER, Typed("A"), ONE_PDF, "s", 0, [Info(1, true, 0)], FateOf(LOST, [LOST], Ok(0)), "",
        WithPdf(lib).digest, map[], map[], map["s" := [LOST]], map[], Err(Unexpected));
    LostKeysUnique();
    SubmitLosesPdfsIff(
      WithPdf(lib), CUSTOMER, Typed("A"), ONE_PDF, "s", 0, [Info(1, true, 0)], "", map[], map[], map["s" := [LOST]], map[],
      Err(Unexpected), [], FailsOnce(fault), 0, 2, LOST, [LOST], Ok(0));
  }

  lemma LostKeysUnique()
    ensures KeysUnique([])
  {
  }
}
