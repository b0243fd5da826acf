/** The reaper: deletes stored objects that no submission references, once they are old enough. */
module Reaper {
  import opened Prelude
  import opened Events
  import opened Folding
  import opened Repository
  import opened Listing
  import opened Repositories
  import opened SqlStore
  import opened Attachments

  const REAPER := Principal("reaper@system.local", {}, System)
  const LISTING_LIMIT := 100_000
  const HOUR := 3_600_000_000

  datatype FileInfo = FileInfo(size: nat, modifiedAt: Time)

  /** `prefix.rstrip("/")`. */
  function WithoutSlashes(prefix: string): string {
    if prefix != "" && prefix[|prefix| - 1] == '/' then WithoutSlashes(prefix[..|prefix| - 1]) else prefix
  }

  predicate Under(root: string, path: string) {
    WithoutSlashes(root) + "/" <= path
  }

  predicate AllSlashes(s: string) {
    forall i :: 0 <= i < |s| ==> s[i] == '/'
  }

  /** A path is under a directory when the directory's name, without slashes at its end, and one slash begin it. */
  lemma UnderIff(root: string, path: string, name: string, slashes: string)
    requires root == name + slashes && AllSlashes(slashes) && (name != "" ==> name[|name| - 1] != '/')
    ensures Under(root, path) <==> name + "/" <= path
  {
    WithoutSlashesIs(name, slashes);
  }

  lemma {:induction false} WithoutSlashesIs(name: string, slashes: string)
    requires AllSlashes(slashes) && (name != "" ==> name[|name| - 1] != '/')
    ensures WithoutSlashes(name + slashes) == name
  {
    if slashes == "" {
      assert name + slashes == name;
    } else {
      WithoutSlashesIs(name, slashes[..|slashes| - 1]);
      assert (name + slashes)[..|name + slashes| - 1] == name + slashes[..|slashes| - 1];
    }
  }

  /** So what the attachment store puts under its root is what the reaper finds there. */
  lemma StoredIsUnder(root: string, account: string, sid: string, docType: string, seqNo: nat)
    requires root != "" ==> root[|root| - 1] != '/'
    ensures Under(root, PathOf(root, account, sid, docType, seqNo))
  {
    assert root + "" == root;
    UnderIff(root, PathOf(root, account, sid, docType, seqNo), root, "");
  }

  function Listed(objects: map<string, FileInfo>, root: string): set<string> {
    set path | path in objects && Under(root, path)
  }

  datatype FileEntry = FileEntry(path: string, info: FileInfo)

  /** The entries are the objects under the directory, each once. */
  ghost predicate IsListing(entries: seq<FileEntry>, objects: map<string, FileInfo>, root: string) {
    && (forall i, j :: 0 <= i < j < |entries| ==> entries[i].path != entries[j].path)
    && (forall i :: 0 <= i < |entries| ==> entries[i].path in Listed(objects, root) && entries[i].info == objects[entries[i].path])
    && (forall path <- Listed(objects, root) :: FileEntry(path, objects[path]) in entries)
  }

  class FilesClient {
    var objects: map<string, FileInfo>

    method List(root: string) returns (entries: seq<FileEntry>)
      ensures IsListing(entries, objects, root)
    {
      entries := [];
      var todo := objects.Keys;
      while todo != {}
        invariant todo <= objects.Keys
        invariant forall i, j :: 0 <= i < j < |entries| ==> entries[i].path != entries[j].path
        invariant forall i :: 0 <= i < |entries| ==>
                    entries[i].path !in todo && entries[i].path in Listed(objects, root) && entries[i].info == objects[entries[i].path]
        invariant forall path <- Listed(objects, root) - todo :: FileEntry(path, objects[path]) in entries
        decreases todo
      {
        var path :| path in todo;
        todo := todo - {path};
        if Under(root, path) {
          entries := entries + [FileEntry(path, objects[path])];
        }
      }
    }

    method Delete(path: string)
      modifies this
      ensures objects == old(objects) - {path}
    {
      objects := objects - {path};
    }
  }

  // --------------------------------------------------------------- references

  /** Some submission has the object among its attachments. */
  predicate Refers(logs: Logs, path: string)
    requires StoreOk(logs)
  {
    exists sid <- logs :: path in Paths(StateOf(logs[sid]).attachments)
  }

  function PathsOf(subs: seq<Submission>): set<string> {
    if |subs| == 0 then {} else PathsOf(subs[..|subs| - 1]) + Paths(subs[|subs| - 1].attachments)
  }

  lemma {:induction false} PathsOfMembers(subs: seq<Submission>, path: string)
    ensures path in PathsOf(subs) <==> exists s <- subs :: path in Paths(s.attachments)
  {
    if |subs| > 0 {
      var init, last := subs[..|subs| - 1], subs[|subs| - 1];
      PathsOfMembers(init, path);
      assert subs == init + [last];
    }
  }

  /** The paths the reaper keeps: those of the submissions in one listing. */
  ghost function KnownPaths(logs: Logs): set<string>
    requires StoreOk(logs)
  {
    PathsOf(ExactListing(logs, REAPER, None, LISTING_LIMIT))
  }

  /** The reaper keeps a path exactly when one of the submissions listed references it. */
  lemma KnownIff(logs: Logs, path: string)
    requires StoreOk(logs)
    ensures path in KnownPaths(logs) <==>
            exists sid <- logs :: |NewerIds(logs, sid)| < LISTING_LIMIT && path in Paths(StateOf(logs[sid]).attachments)
  {
    hide StateOf, Paths, PathsOf, NewerIds, NewestFirst, WithStatus, WellFormed;
    var listed := ExactListing(logs, REAPER, None, LISTING_LIMIT);
    PathsOfMembers(listed, path);
    ListedAreCurrent(logs);
    if path in KnownPaths(logs) {
      var s :| s in listed && path in Paths(s.attachments);
      ListedUnfilteredIff(logs, REAPER, s.submissionId, LISTING_LIMIT);
    }
    if sid :| sid in logs && |NewerIds(logs, sid)| < LISTING_LIMIT && path in Paths(StateOf(logs[sid]).attachments) {
      ListedUnfilteredIff(logs, REAPER, sid, LISTING_LIMIT);
    }
  }

  lemma ListedAreCurrent(logs: Logs)
    requires StoreOk(logs)
    ensures forall s <- ExactListing(logs, REAPER, None, LISTING_LIMIT) :: s.submissionId in logs && s == StateOf(logs[s.submissionId])
  {
    hide StateOf, NewestFirst, WithStatus, WellFormed;
    WithStatusMembers(NewestFirst(logs, REAPER), None);
  }

  /** With no more submissions than one listing returns, they are exactly the referenced ones. */
  lemma KnownIsReferenced(logs: Logs, path: string)
    requires StoreOk(logs) && |logs| <= LISTING_LIMIT
    ensures path in KnownPaths(logs) <==> Refers(logs, path)
  {
    hide StateOf, Paths, KnownPaths, WellFormed;
    KnownIff(logs, path);
    forall sid <- logs
      ensures |NewerIds(logs, sid)| < LISTING_LIMIT
    {
      NewerIrreflexive(KeyOf(logs, sid));
      SubsetSize(NewerIds(logs, sid) + {sid}, logs.Keys);
      assert |logs.Keys| == |logs|;
    }
  }

  method ReferencedPaths(repo: SubmissionRepository) returns (paths: set<string>)
    requires repo.Valid()
    ensures paths == KnownPaths(repo.Logs())
  {
    hide StoreOk, Represents, ExactListing, PushedListing, Paths;
    paths := {};
    var listing := repo.ListSubmissions(REAPER, None, LISTING_LIMIT);
    UnfilteredListingExact(repo.Logs(), REAPER, LISTING_LIMIT);
    var subs := listing.value;
    for i := 0 to |subs|
      invariant paths == PathsOf(subs[..i])
    {
      assert subs[..i + 1][..i] == subs[..i];
      paths := paths + Paths(subs[i].attachments);
    }
    assert subs[..|subs|] == subs;
  }

  // ------------------------------------------------------------------ one run

  /** Unreferenced objects that are too young to delete, and those that are not. */
  function Recent(objects: map<string, FileInfo>, root: string, known: set<string>, cutoff: Time): set<string> {
    set path | path in objects && Under(root, path) && path !in known && objects[path].modifiedAt > cutoff
  }

  function Orphans(objects: map<string, FileInfo>, root: string, known: set<string>, cutoff: Time): set<string> {
    set path | path in objects && Under(root, path) && path !in known && objects[path].modifiedAt <= cutoff
  }

  datatype ReapResult = ReapResult(scanned: nat, referenced: nat, deleted: seq<string>, skippedRecent: nat)

  /** The paths of the entries that `p` selects, in order. */
  function Picked(entries: seq<FileEntry>, p: FileEntry -> bool): seq<string> {
    if |entries| == 0 then []
    else
      var last := entries[|entries| - 1];
      Picked(entries[..|entries| - 1], p) + if p(last) then [last.path] else []
  }

  function IsKnown(known: set<string>): FileEntry -> bool {
    (e: FileEntry) => e.path in known
  }

  function IsRecent(known: set<string>, cutoff: Time): FileEntry -> bool {
    (e: FileEntry) => e.path !in known && e.info.modifiedAt > cutoff
  }

  function IsOrphan(known: set<string>, cutoff: Time): FileEntry -> bool {
    (e: FileEntry) => e.path !in known && e.info.modifiedAt <= cutoff
  }

  /** `reap` when nothing else happens meanwhile. */
  method Reap(files: FilesClient, repo: SubmissionRepository, root: string, graceHours: int, dryRun: bool, now: Time)
    returns (r: ReapResult)
    requires repo.Valid()
    modifies files
    ensures var objects, known, cutoff := old(files.objects), KnownPaths(repo.Logs()), now - graceHours * HOUR;
            && Distinct(r.deleted) && SetOf(r.deleted) == Orphans(objects, root, known, cutoff)
            && files.objects == (if dryRun then objects else objects - Orphans(objects, root, known, cutoff))
            && r.referenced == |known| && r.skippedRecent == |Recent(objects, root, known, cutoff)|
            && r.scanned == |Listed(objects, root)| == |Listed(objects, root) * known| + r.skippedRecent + |r.deleted|
  {
    hide KnownPaths, IsListing, Orphans, Recent, Listed, Distinct, SetOf, Picked, IsOrphan, IsRecent;
    var cutoff := now - graceHours * HOUR;
    var known := ReferencedPaths(repo);
    var entries := files.List(root);
    Totals(entries, files.objects, root, known, cutoff);
    var scanned, deleted, skipped := Sweep(files, entries, known, cutoff, dryRun);
    return ReapResult(scanned, |known|, deleted, skipped);
  }

  /** The loop over the listed objects. */
  method Sweep(files: FilesClient, entries: seq<FileEntry>, known: set<string>, cutoff: Time, dryRun: bool)
    returns (scanned: nat, deleted: seq<string>, skipped: nat)
    modifies files
    ensures scanned == |entries| && deleted == Picked(entries, IsOrphan(known, cutoff))
    ensures skipped == |Picked(entries, IsRecent(known, cutoff))|
    ensures files.objects == if dryRun then old(files.objects) else old(files.objects) - SetOf(deleted)
  {
    deleted := [];
    scanned, skipped := 0, 0;
    for i := 0 to |entries|
      invariant scanned == i && deleted == Picked(entries[..i], IsOrphan(known, cutoff))
      invariant skipped == |Picked(entries[..i], IsRecent(known, cutoff))|
      invariant files.objects == if dryRun then old(files.objects) else old(files.objects) - SetOf(deleted)
    {
      var entry := entries[i];
      PickedOneMore(entries, i, IsOrphan(known, cutoff));
      PickedOneMore(entries, i, IsRecent(known, cutoff));
      scanned := scanned + 1;
      if entry.path in known {
        continue;
      }
      if entry.info.modifiedAt > cutoff {
        skipped := skipped + 1;
        continue;
      }
      if !dryRun {
        files.Delete(entry.path);
      }
      assert SetOf(deleted + [entry.path]) == SetOf(deleted) + {entry.path};
      deleted := deleted + [entry.path];
    }
    assert entries[..|entries|] == entries;
  }

  lemma PickedOneMore(entries: seq<FileEntry>, i: nat, p: FileEntry -> bool)
    requires i < |entries|
    ensures Picked(entries[..i + 1], p) == Picked(entries[..i], p) + if p(entries[i]) then [entries[i].path] else []
  {
    assert entries[..i + 1][..i] == entries[..i];
  }

  lemma {:induction false} PickedMembers(entries: seq<FileEntry>, p: FileEntry -> bool)
    requires forall i, j :: 0 <= i < j < |entries| ==> entries[i].path != entries[j].path
    ensures Distinct(Picked(entries, p))
    ensures forall path :: path in Picked(entries, p) <==> exists e <- entries :: e.path == path && p(e)
  {
    if |entries| > 0 {
      var init, last := entries[..|entries| - 1], entries[|entries| - 1];
      PickedMembers(init, p);
      assert entries == init + [last];
      assert forall e <- init :: e.path != last.path;
      var r := Picked(init, p);
      forall i | 0 <= i < |r|
        ensures r[i] != last.path
      {
        assert r[i] in r;
      }
    }
  }

  lemma {:induction false} ThreeKinds(entries: seq<FileEntry>, known: set<string>, cutoff: Time)
    ensures |entries| == |Picked(entries, IsKnown(known))| + |Picked(entries, IsRecent(known, cutoff))| +
                         |Picked(entries, IsOrphan(known, cutoff))|
  {
    if |entries| > 0 {
      ThreeKinds(entries[..|entries| - 1], known, cutoff);
    }
  }

  /** What is picked from a listing, as a set of objects. */
  lemma PickedObjects(
      entries: seq<FileEntry>, objects: map<string, FileInfo>, root: string, p: FileEntry -> bool, paths: set<string>)
    requires IsListing(entries, objects, root)
    requires forall path :: path in paths <==> path in Listed(objects, root) && p(FileEntry(path, objects[path]))
    ensures Distinct(Picked(entries, p)) && SetOf(Picked(entries, p)) == paths && |Picked(entries, p)| == |paths|
  {
    hide Picked, Distinct;
    PickedMembers(entries, p);
    SetSizeIff(Picked(entries, p));
    forall path
      ensures path in SetOf(Picked(entries, p)) <==> path in paths
    {
      if path in paths {
        assert FileEntry(path, objects[path]) in entries;
      }
    }
    assert SetOf(Picked(entries, p)) == paths;
  }

  lemma Totals(
      entries: seq<FileEntry>, objects: map<string, FileInfo>, root: string, known: set<string>, cutoff: Time)
    requires IsListing(entries, objects, root)
    ensures var deleted := Picked(entries, IsOrphan(known, cutoff));
            && Distinct(deleted) && SetOf(deleted) == Orphans(objects, root, known, cutoff)
            && |Picked(entries, IsRecent(known, cutoff))| == |Recent(objects, root, known, cutoff)|
            && |entries| == |Listed(objects, root)| ==
               |Listed(objects, root) * known| + |Recent(objects, root, known, cutoff)| + |deleted|
  {
    hide IsListing, Picked, Distinct;
    ThreeKinds(entries, known, cutoff);
    PickedObjects(entries, objects, root, IsOrphan(known, cutoff), Orphans(objects, root, known, cutoff));
    PickedObjects(entries, objects, root, IsRecent(known, cutoff), Recent(objects, root, known, cutoff));
    PickedObjects(entries, objects, root, IsKnown(known), Listed(objects, root) * known);
    ListedPartition(objects, root, known, cutoff);
  }

  lemma ListedPartition(objects: map<string, FileInfo>, root: string, known: set<string>, cutoff: Time)
    ensures |Listed(objects, root)| ==
            |Listed(objects, root) * known| + |Recent(objects, root, known, cutoff)| + |Orphans(objects, root, known, cutoff)|
  {
    var k, r, o := Listed(objects, root) * known, Recent(objects, root, known, cutoff), Orphans(objects, root, known, cutoff);
    assert Listed(objects, root) == k + r + o;
    assert k !! r && (k + r) !! o;
    assert |k + r| == |k| + |r|;
    assert |k + r + o| == |k + r| + |o|;
  }

  /** After a run that is not a dry one, every object left is referenced or recent, and no referenced one is gone. */
  lemma LeftIsReferencedOrRecent(
      logs: Logs, objects: map<string, FileInfo>, root: string, cutoff: Time, path: string)
    requires StoreOk(logs) && |logs| <= LISTING_LIMIT && path in objects && Under(root, path)
    ensures path in objects - Orphans(objects, root, KnownPaths(logs), cutoff) <==>
            Refers(logs, path) || objects[path].modifiedAt > cutoff
  {
    KnownIsReferenced(logs, path);
  }
}
