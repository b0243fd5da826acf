/** Uploaded PDFs: the policy they must meet, and the store that keeps them. */
module Attachments {
  import opened Prelude
  import opened Numerals
  import opened Events

  /** File content, one character per byte. */
  type Bytes = string

  const PDF_MAGIC := "%PDF-"

  datatype Upload = Upload(docType: string, filename: string, content: Bytes)

  datatype DocType = DocType(name: string, required: bool, maxCount: nat)

  datatype Policy = Policy(docTypes: seq<DocType>)

  datatype AttachmentMessage = UnknownDocType | AtLeastOne | TooMany(limit: nat) | NotPdf(filename: string) | Duplicate

  /** Messages per document type, and under None those about all attachments together. */
  type AttachmentErrors = map<Option<string>, AttachmentMessage>

  // ------------------------------------------------------------------- policy

  function CountOf(uploads: seq<Upload>, docType: string): nat {
    if |uploads| == 0 then 0
    else CountOf(uploads[..|uploads| - 1], docType) + if uploads[|uploads| - 1].docType == docType then 1 else 0
  }

  function TypeNames(policy: Policy): set<string> {
    set d <- policy.docTypes :: d.name
  }

  /** `counts.get(name, 0)`. */
  function At(counts: map<string, nat>, name: string): nat {
    if name in counts then counts[name] else 0
  }

  predicate IsPdf(u: Upload) {
    PDF_MAGIC <= u.content
  }

  function Digests(digest: Bytes -> string, uploads: seq<Upload>): seq<string> {
    seq(|uploads|, i requires 0 <= i < |uploads| => digest(uploads[i].content))
  }

  /** The attachments meet the policy, are all PDFs, and no content comes twice. */
  predicate Acceptable(policy: Policy, digest: Bytes -> string, uploads: seq<Upload>) {
    && (forall u <- uploads :: Declares(policy, u.docType) && PDF_MAGIC <= u.content)
    && (forall d <- policy.docTypes :: (d.required ==> CountOf(uploads, d.name) >= 1) && CountOf(uploads, d.name) <= d.maxCount)
    && !SameContent(digest, uploads)
  }

  predicate Declares(policy: Policy, name: string) {
    exists d <- policy.docTypes :: d.name == name
  }

  /** Two uploads have the same content, as far as digests tell. */
  predicate SameContent(digest: Bytes -> string, uploads: seq<Upload>) {
    exists i, j :: 0 <= i < j < |uploads| && digest(uploads[i].content) == digest(uploads[j].content)
  }

  function IsOfType(docType: string): Upload -> bool {
    (u: Upload) => u.docType == docType
  }

  /** The count is the number of uploads of that type. */
  lemma {:induction false} CountOfIs(uploads: seq<Upload>, docType: string)
    ensures CountOf(uploads, docType) == |IndicesWhere(uploads, IsOfType(docType))|
  {
    if |uploads| > 0 {
      CountOfIs(uploads[..|uploads| - 1], docType);
      IndicesOneMore(uploads, IsOfType(docType));
    }
  }

  lemma {:induction false} CountPositive(uploads: seq<Upload>, docType: string)
    ensures CountOf(uploads, docType) > 0 <==> exists u <- uploads :: u.docType == docType
  {
    if |uploads| > 0 {
      CountPositive(uploads[..|uploads| - 1], docType);
      assert uploads == uploads[..|uploads| - 1] + [uploads[|uploads| - 1]];
    }
  }

  method CountTypes(uploads: seq<Upload>) returns (counts: map<string, nat>)
    ensures forall name :: At(counts, name) == CountOf(uploads, name)
    ensures forall name <- counts :: counts[name] > 0
  {
    counts := map[];
    for i := 0 to |uploads|
      invariant forall name :: At(counts, name) == CountOf(uploads[..i], name)
      invariant forall name <- counts :: counts[name] > 0
    {
      var a := uploads[i];
      assert uploads[..i + 1][..i] == uploads[..i];
      counts := counts[a.docType := At(counts, a.docType) + 1];
    }
    assert uploads[..|uploads|] == uploads;
  }

  /** The document types of the uploads that are no PDF. */
  function NotPdfs(uploads: seq<Upload>): set<Option<string>> {
    set u <- uploads | !IsPdf(u) :: Some(u.docType)
  }

  /** A document type of that name has too few or too many attachments. */
  predicate Miscounted(docTypes: seq<DocType>, name: string, count: nat) {
    exists d <- docTypes :: d.name == name && ((d.required && count < 1) || count > d.maxCount)
  }

  /** `policy.check_counts`, with the keys `_check_attachments` files the messages under. */
  method CheckCounts(policy: Policy, counts: map<string, nat>) returns (errors: AttachmentErrors)
    ensures None !in errors
    ensures forall name :: Some(name) in errors <==>
              (name in counts && name !in TypeNames(policy)) || Miscounted(policy.docTypes, name, At(counts, name))
    ensures forall name :: Some(name) in errors && name !in TypeNames(policy) ==> errors[Some(name)] == UnknownDocType
    ensures forall name :: Some(name) in errors && name in TypeNames(policy) ==>
              exists d <- policy.docTypes :: Says(d, name, At(counts, name), errors[Some(name)])
  {
    errors := map[];
    var todo := counts.Keys;
    while todo != {}
      invariant todo <= counts.Keys
      invariant forall key :: key in errors <==>
                  key.Some? && key.value in counts && key.value !in todo && key.value !in TypeNames(policy)
      invariant forall key <- errors :: errors[key] == UnknownDocType
      decreases todo
    {
      var name :| name in todo;
      todo := todo - {name};
      if name !in TypeNames(policy) {
        errors := errors[Some(name) := UnknownDocType];
      }
    }
    ghost var unknown := errors;
    for i := 0 to |policy.docTypes|
      invariant forall key :: key in errors <==>
                  key in unknown || (key.Some? && Miscounted(policy.docTypes[..i], key.value, At(counts, key.value)))
      invariant forall name :: Some(name) in errors ==>
                  if name !in TypeNames(policy) then errors[Some(name)] == UnknownDocType
                  else exists d <- policy.docTypes :: Says(d, name, At(counts, name), errors[Some(name)])
    {
      var d := policy.docTypes[i];
      assert policy.docTypes[..i + 1] == policy.docTypes[..i] + [d];
      var n := At(counts, d.name);
      if d.required && n < 1 {
        errors := errors[Some(d.name) := AtLeastOne];
      } else if n > d.maxCount {
        errors := errors[Some(d.name) := TooMany(d.maxCount)];
      }
      assert d in policy.docTypes && d.name in TypeNames(policy);
      assert (d.required && n < 1) || n > d.maxCount ==> Says(d, d.name, n, errors[Some(d.name)]);
    }
    assert policy.docTypes[..|policy.docTypes|] == policy.docTypes;
  }

  /** The message is the one of this document type for that many attachments. */
  predicate Says(d: DocType, name: string, count: nat, message: AttachmentMessage) {
    d.name == name &&
    if d.required && count < 1 then message == AtLeastOne else count > d.maxCount && message == TooMany(d.maxCount)
  }

  /** An upload of that type is no PDF, or the type is not one of the policy's. */
  predicate Misfiled(policy: Policy, uploads: seq<Upload>, name: string) {
    exists u <- uploads :: u.docType == name && (!Declares(policy, name) || !(PDF_MAGIC <= u.content))
  }

  /** The message is about one of the uploads of that type that is no PDF. */
  predicate NamesNoPdf(uploads: seq<Upload>, name: string, message: AttachmentMessage) {
    exists u <- uploads :: u.docType == name && !(PDF_MAGIC <= u.content) && message == NotPdf(u.filename)
  }

  /** What the message under a document type says: first of all that a file is no PDF. */
  predicate Explains(policy: Policy, uploads: seq<Upload>, name: string, message: AttachmentMessage) {
    if exists u <- uploads :: u.docType == name && !(PDF_MAGIC <= u.content) then NamesNoPdf(uploads, name, message)
    else if !Declares(policy, name) then message == UnknownDocType
    else exists d <- policy.docTypes :: Says(d, name, CountOf(uploads, name), message)
  }

  /** The messages are exactly those that the uploads call for. */
  ghost predicate Reports(policy: Policy, digest: Bytes -> string, uploads: seq<Upload>, errors: AttachmentErrors) {
    && (None in errors <==> SameContent(digest, uploads)) && (None in errors ==> errors[None] == Duplicate)
    && (forall name :: Some(name) in errors <==>
          Misfiled(policy, uploads, name) || Miscounted(policy.docTypes, name, CountOf(uploads, name)))
    && forall name :: Some(name) in errors ==> Explains(policy, uploads, name, errors[Some(name)])
  }

  /** `_check_attachments`: no message exactly when the attachments are acceptable. */
  method CheckAttachments(policy: Policy, digest: Bytes -> string, uploads: seq<Upload>) returns (errors: AttachmentErrors)
    ensures errors == map[] <==> Acceptable(policy, digest, uploads)
    ensures Reports(policy, digest, uploads, errors)
  {
    hide Says, Miscounted, Misfiled, Explains, NamesNoPdf, NotPdfs, IsPdf, Distinct, SetOf, TypeNames, Acceptable, SameContent;
    var counts := CountTypes(uploads);
    errors := CheckCounts(policy, counts);
    ghost var base := errors;
    var digests: seq<string> := [];
    NoPdfsYet(uploads);
    for i := 0 to |uploads|
      invariant digests == Digests(digest, uploads[..i])
      invariant errors.Keys == base.Keys + NotPdfs(uploads[..i])
      invariant forall key <- NotPdfs(uploads[..i]) :: key.Some? && NamesNoPdf(uploads, key.value, errors[key])
      invariant forall key <- base :: key !in NotPdfs(uploads[..i]) ==> errors[key] == base[key]
    {
      var a := uploads[i];
      OneMoreUpload(uploads, i);
      if !IsPdf(a) {
        errors := errors[Some(a.docType) := NotPdf(a.filename)];
      }
      digests := digests + [digest(a.content)];
    }
    assert uploads[..|uploads|] == uploads;
    ErrorsAreExact(policy, uploads, counts, base, errors);
    SetSizeIff(digests);
    SameContentIff(digest, uploads);
    if |SetOf(digests)| != |digests| {
      errors := errors[None := Duplicate];
    }
    NoErrorsIff(policy, digest, uploads, errors);
  }

  lemma SameContentIff(digest: Bytes -> string, uploads: seq<Upload>)
    ensures SameContent(digest, uploads) <==> !Distinct(Digests(digest, uploads))
  {
    var digests := Digests(digest, uploads);
    assert forall i :: 0 <= i < |uploads| ==> digests[i] == digest(uploads[i].content);
  }

  lemma NoPdfsYet(uploads: seq<Upload>)
    ensures NotPdfs(uploads[..0]) == {}
  {
  }

  lemma OneMoreUpload(uploads: seq<Upload>, i: nat)
    requires i < |uploads|
    ensures NotPdfs(uploads[..i + 1]) == NotPdfs(uploads[..i]) + if IsPdf(uploads[i]) then {} else {Some(uploads[i].docType)}
    ensures !IsPdf(uploads[i]) ==> NamesNoPdf(uploads, uploads[i].docType, NotPdf(uploads[i].filename))
  {
    assert uploads[..i + 1] == uploads[..i] + [uploads[i]];
    assert uploads[i] in uploads;
  }

  lemma DeclaredNames(policy: Policy)
    ensures forall name :: name in TypeNames(policy) <==> Declares(policy, name)
  {
  }

  lemma NotPdfsAre(uploads: seq<Upload>)
    ensures forall name :: Some(name) in NotPdfs(uploads) <==>
              exists u <- uploads :: u.docType == name && !(PDF_MAGIC <= u.content)
  {
  }

  lemma ErrorsAreExact(
      policy: Policy, uploads: seq<Upload>, counts: map<string, nat>, base: AttachmentErrors, errors: AttachmentErrors)
    requires (forall name :: At(counts, name) == CountOf(uploads, name)) && forall name <- counts :: counts[name] > 0
    requires forall name :: Some(name) in base <==>
               (name in counts && name !in TypeNames(policy)) || Miscounted(policy.docTypes, name, At(counts, name))
    requires forall name :: Some(name) in base && name !in TypeNames(policy) ==> base[Some(name)] == UnknownDocType
    requires forall name :: Some(name) in base && name in TypeNames(policy) ==>
               exists d <- policy.docTypes :: Says(d, name, At(counts, name), base[Some(name)])
    requires errors.Keys == base.Keys + NotPdfs(uploads)
    requires forall key <- NotPdfs(uploads) :: key.Some? && NamesNoPdf(uploads, key.value, errors[key])
    requires forall key <- base :: key !in NotPdfs(uploads) ==> errors[key] == base[key]
    ensures forall name :: Some(name) in errors <==>
              Misfiled(policy, uploads, name) || Miscounted(policy.docTypes, name, CountOf(uploads, name))
    ensures forall name :: Some(name) in errors ==> Explains(policy, uploads, name, errors[Some(name)])
  {
    hide Says, Miscounted, NamesNoPdf, NotPdfs, TypeNames, Declares;
    DeclaredNames(policy);
    NotPdfsAre(uploads);
    CountedNames(counts, uploads);
    forall name
      ensures At(counts, name) == CountOf(uploads, name)
    {
    }
  }

  lemma CountedNames(counts: map<string, nat>, uploads: seq<Upload>)
    requires forall name :: At(counts, name) == CountOf(uploads, name)
    requires forall name <- counts :: counts[name] > 0
    ensures forall name :: name in counts <==> exists u <- uploads :: u.docType == name
  {
    forall name
      ensures name in counts <==> exists u <- uploads :: u.docType == name
    {
      assert At(counts, name) == CountOf(uploads, name);
      CountPositive(uploads, name);
    }
  }

  lemma NoErrorsIff(policy: Policy, digest: Bytes -> string, uploads: seq<Upload>, errors: AttachmentErrors)
    requires Reports(policy, digest, uploads, errors)
    ensures errors == map[] <==> Acceptable(policy, digest, uploads)
  {
    hide SameContent, Explains, Declares;
    assert errors == map[] <==> errors.Keys == {};
    if Acceptable(policy, digest, uploads) {
      forall key
        ensures key !in errors
      {
        if key.Some? {
          assert Some(key.value) !in errors;
        }
      }
    } else if errors == map[] {
      forall u <- uploads
        ensures Declares(policy, u.docType) && PDF_MAGIC <= u.content
      {
        assert Some(u.docType) !in errors;
      }
      forall d <- policy.docTypes
        ensures (d.required ==> CountOf(uploads, d.name) >= 1) && CountOf(uploads, d.name) <= d.maxCount
      {
        assert Some(d.name) !in errors;
      }
    }
  }

  // -------------------------------------------------------------------- store

  /** The directory of one submission's objects. */
  function Directory(root: string, account: string, sid: string): string {
    root + "/" + account + "/" + sid + "/"
  }

  function PathOf(root: string, account: string, sid: string, docType: string, seqNo: nat): string {
    Directory(root, account, sid) + (docType + ['_'] + Digits(seqNo) + ".pdf")
  }

  predicate NoSlash(s: string) {
    forall i :: 0 <= i < |s| ==> s[i] != '/'
  }

  lemma SlashSplits(a: string, x: string, b: string, y: string)
    requires NoSlash(a) && NoSlash(b) && a + "/" + x == b + "/" + y
    ensures a == b && x == y
  {
    var s := a + "/" + x;
    assert s[|a|] == '/' && s[|b|] == '/';
    assert forall i :: 0 <= i < |a| ==> s[i] == a[i];
    assert forall i :: 0 <= i < |b| ==> s[i] == b[i];
    assert |a| == |b|;
    assert s[..|a|] == a && s[..|b|] == b;
    assert s[|a| + 1..] == x && s[|b| + 1..] == y;
  }

  /** Ids without slashes give every submission a directory of its own: no object of another one lies in it. */
  lemma DirectoriesApart(root: string, a: string, s: string, b: string, t: string, docType: string, seqNo: nat)
    requires NoSlash(a) && NoSlash(s) && NoSlash(b) && NoSlash(t) && Directory(root, a, s) <= PathOf(root, b, t, docType, seqNo)
    ensures a == b && s == t
  {
    var path, rest := PathOf(root, b, t, docType, seqNo), docType + ['_'] + Digits(seqNo) + ".pdf";
    var tail := path[|Directory(root, a, s)|..];
    hide Digits;
    assert path == Directory(root, a, s) + tail;
    assert path == root + "/" + (b + "/" + (t + "/" + rest));
    assert path == root + "/" + (a + "/" + (s + "/" + tail));
    assert path[|root| + 1..] == b + "/" + (t + "/" + rest) == a + "/" + (s + "/" + tail);
    SlashSplits(b, t + "/" + rest, a, s + "/" + tail);
    SlashSplits(t, rest, s, tail);
  }

  function Paths(metas: seq<AttachmentMeta>): set<string> {
    set i | 0 <= i < |metas| :: metas[i].storagePath
  }

  /** Differently numbered attachments of a submission never share a path, whatever their document types. */
  lemma PathsDistinct(root: string, account: string, sid: string, a: string, m: nat, b: string, n: nat)
    requires PathOf(root, account, sid, a, m) == PathOf(root, account, sid, b, n)
    ensures a == b && m == n
  {
    var dir := Directory(root, account, sid);
    var x, y := a + ['_'] + Digits(m), b + ['_'] + Digits(n);
    assert x + ".pdf" == PathOf(root, account, sid, a, m)[|dir|..];
    assert y + ".pdf" == PathOf(root, account, sid, b, n)[|dir|..];
    assert x == (x + ".pdf")[..|x|] && y == (y + ".pdf")[..|y|];
    NumberedNameInjective(a, m, b, n, '_');
  }

  /** What becomes of an upload inside `put`: a failure that leaves nothing behind, or the facts found in the PDF. */
  datatype Inspection = Fails | Info(pageCount: nat, hasTextLayer: bool, uploadedAt: Time)

  class AttachmentStore {
    const root: string
    const digest: Bytes -> string
    var objects: map<string, Bytes>

    constructor (root: string, digest: Bytes -> string)
      ensures this.root == root && this.digest == digest && objects == map[]
    {
      this.root, this.digest, objects := root, digest, map[];
    }

    /** None stands for any exception. */
    method Put(p: Principal, sid: string, account: string, seqNo: nat, u: Upload, outcome: Inspection)
      returns (meta: Option<AttachmentMeta>)
      modifies this
      ensures meta.None? <==> !p.Sees(account) || outcome.Fails?
      ensures meta.None? ==> objects == old(objects)
      ensures meta.Some? ==>
                && meta.value == AttachmentMeta(
                     sid, account, u.docType, seqNo, u.filename, PathOf(root, account, sid, u.docType, seqNo), digest(u.content),
                     |u.content|, outcome.pageCount, outcome.hasTextLayer, outcome.uploadedAt, p.email)
                && objects == old(objects)[meta.value.storagePath := u.content]
    {
      if !p.Sees(account) {
        return None;
      }
      var path := PathOf(root, account, sid, u.docType, seqNo);
      match outcome {
        case Fails =>
          return None;
        case Info(pageCount, hasTextLayer, uploadedAt) =>
          objects := objects[path := u.content];
          return Some(AttachmentMeta(
            sid, account, u.docType, seqNo, u.filename, path, digest(u.content), |u.content|, pageCount,
            hasTextLayer, uploadedAt, p.email));
      }
    }

    /** Removes one object; false stands for NotFoundError, outside the caller's scope or the submission's directory. */
    method Delete(p: Principal, meta: AttachmentMeta) returns (ok: bool)
      modifies this
      ensures ok <==> p.Sees(meta.accountId) && Directory(root, meta.accountId, meta.submissionId) <= meta.storagePath
      ensures objects == if ok then old(objects) - {meta.storagePath} else old(objects)
    {
      if !p.Sees(meta.accountId) {
        return false;
      }
      if !(Directory(root, meta.accountId, meta.submissionId) <= meta.storagePath) {
        return false;
      }
      objects := objects - {meta.storagePath};
      return true;
    }
  }
}
