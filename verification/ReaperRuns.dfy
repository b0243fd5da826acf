/** Submits and reaper runs share the object store while time passes. */
module ReaperRuns {
  import opened Prelude
  import opened Events
  import opened Folding
  import opened Repository
  import opened Listing
  import opened Attachments
  import opened Reaper

  /** A reaper under way: its cutoff, the paths it keeps once it has read them, and the objects it is about to delete. */
  datatype Reaping = Reaping(cutoff: Time, known: Option<set<string>>, doomed: set<string>)

  /** `objects` gives modification times; `inFlight` the uploads of submits that have not appended yet. */
  datatype World = World(
    now: Time, logs: Logs, objects: map<string, Time>, used: set<string>, inFlight: map<string, Time>, reapers: map<nat, Reaping>)

  datatype Step =
    | Tick(to: Time)
    | Upload(path: string)
    | Discard(path: string)              // a failing submit removes what it stored
    | Abandon(path: string)              // a dying submit leaves an orphan
    | Append(p: Principal, expected: int, e: Event)
    | Start(id: nat)
    | Read(id: nat)
    | Mark(id: nat, path: string)
    | Delete(id: nat, path: string)
    | Stop(id: nat)

  /** The objects an event adds to those its submission references. */
  function NewPaths(e: Event): set<string> {
    match e.payload
    case Submitted(_, attachments) => Paths(attachments)
    case AttachmentAdded(meta) => {meta.storagePath}
    case _ => {}
  }

  /** The event references uploads of its own, less than `window` old. */
  predicate Prompt(w: World, window: int, e: Event) {
    forall path <- NewPaths(e) :: path in w.inFlight && w.now < w.inFlight[path] + window
  }

  ghost predicate Next(grace: int, window: int, w: World, s: Step, w': World)
    requires StoreOk(w.logs)
  {
    match s
    case Tick(to) => w.now <= to && w' == w.(now := to)
    case Upload(path) =>
      && path !in w.used
      && w' == w.(objects := w.objects[path := w.now], used := w.used + {path}, inFlight := w.inFlight[path := w.now])
    case Discard(path) => path in w.inFlight && w' == w.(objects := w.objects - {path}, inFlight := w.inFlight - {path})
    case Abandon(path) => path in w.inFlight && w' == w.(inFlight := w.inFlight - {path})
    case Append(p, expected, e) =>
      && AppendAnswer(w.logs, p, e.submissionId, expected, e).Ok? && Prompt(w, window, e)
      && w' == w.(logs := Extended(w.logs, e), inFlight := w.inFlight - NewPaths(e))
    case Start(id) => id !in w.reapers && w' == w.(reapers := w.reapers[id := Reaping(w.now - grace, None, {})])
    case Read(id) =>
      && id in w.reapers && w.reapers[id].known.None?
      && w' == w.(reapers := w.reapers[id := w.reapers[id].(known := Some(KnownPaths(w.logs)))])
    case Mark(id, path) =>
      && id in w.reapers && w.reapers[id].known.Some?
      && path in w.objects && path !in w.reapers[id].known.value && w.objects[path] <= w.reapers[id].cutoff
      && w' == w.(reapers := w.reapers[id := w.reapers[id].(doomed := w.reapers[id].doomed + {path})])
    case Delete(id, path) =>
      && id in w.reapers && path in w.reapers[id].doomed
      && w' == w.(objects := w.objects - {path},
                  reapers := w.reapers[id := w.reapers[id].(doomed := w.reapers[id].doomed - {path})])
    case Stop(id) => w' == w.(reapers := w.reapers - {id})
  }

  const START := World(0, map[], map[], {}, map[], map[])

  /** Submits append less than `window` after their uploads, and there are never more than `bound` submissions. */
  ghost predicate IsRun(grace: int, window: int, bound: nat, worlds: seq<World>, steps: seq<Step>) {
    && |worlds| == |steps| + 1 && worlds[0] == START
    && (forall i :: 0 <= i <= |steps| ==> StoreOk(worlds[i].logs) && |worlds[i].logs| <= bound)
    && forall i :: 0 <= i < |steps| ==> Next(grace, window, worlds[i], steps[i], worlds[i + 1])
  }

  // -------------------------------------------------------------- the invariant

  predicate UploadsOk(w: World, grace: int) {
    && (forall path <- w.objects :: path in w.used)
    && (forall path <- w.inFlight ::
          && path in w.used
          && if path in w.objects then w.objects[path] == w.inFlight[path] else w.inFlight[path] + grace <= w.now)
  }

  ghost predicate ReferencesOk(w: World)
    requires StoreOk(w.logs)
  {
    forall path :: Refers(w.logs, path) ==> path in w.objects && path !in w.inFlight
  }

  ghost predicate ReapingOk(w: World, grace: int, r: Reaping)
    requires StoreOk(w.logs)
  {
    && r.cutoff + grace <= w.now
    && (forall path <- r.doomed ::
          path in w.used && !Refers(w.logs, path) && (path in w.inFlight ==> w.inFlight[path] <= r.cutoff))
    && (r.known.Some? ==>
          forall path :: Refers(w.logs, path) && path in w.objects ==> path in r.known.value || w.objects[path] > r.cutoff)
  }

  ghost predicate Inv(w: World, grace: int) {
    && StoreOk(w.logs) && UploadsOk(w, grace) && ReferencesOk(w)
    && forall id <- w.reapers :: ReapingOk(w, grace, w.reapers[id])
  }

  lemma ReferencesExtended(logs: Logs, e: Event, path: string)
    requires StoreOk(logs) && StoreOk(Extended(logs, e))
    ensures Refers(Extended(logs, e), path) <==> Refers(logs, path) || path in NewPaths(e)
  {
    hide StateOf;
    var logs', sid := Extended(logs, e), e.submissionId;
    var log := if sid in logs then logs[sid] else [];
    assert logs'[sid] == log + [e];
    ReferencesOfLog(log, e);
    forall s <- logs | s != sid
      ensures s in logs' && logs'[s] == logs[s]
    {
    }
  }

  lemma ReferencesOfLog(log: seq<Event>, e: Event)
    requires (log == [] || WellFormed(log)) && WellFormed(log + [e])
    ensures Paths(StateOf(log + [e]).attachments) ==
            (if log == [] then {} else Paths(StateOf(log).attachments)) + NewPaths(e)
  {
    if log == [] {
      assert [] + [e] == [e];
    } else {
      WellFormedExtend(log, e);
      if e.payload.AttachmentAdded? {
        PathsOneMore(StateOf(log).attachments, e.payload.meta);
      }
    }
  }

  lemma PathsOneMore(metas: seq<AttachmentMeta>, meta: AttachmentMeta)
    ensures Paths(metas + [meta]) == Paths(metas) + {meta.storagePath}
  {
    var ext := metas + [meta];
    assert ext[|metas|] == meta && forall i :: 0 <= i < |metas| ==> ext[i] == metas[i];
  }

  lemma AppendStep(grace: int, window: int, w: World, p: Principal, expected: int, e: Event, w': World)
    requires window <= grace && Inv(w, grace) && Next(grace, window, w, Append(p, expected, e), w')
    ensures Inv(w', grace)
  {
    hide Refers, NewPaths, AppendAnswer, Extended, StoreOk;
    assert StoreOk(Extended(w.logs, e)) by { AcceptedIff(w.logs, p, e.submissionId, expected, e); }
    forall path
      ensures Refers(w'.logs, path) <==> Refers(w.logs, path) || path in NewPaths(e)
    {
      ReferencesExtended(w.logs, e, path);
    }
    forall id <- w'.reapers
      ensures ReapingOk(w', grace, w'.reapers[id])
    {
      assert ReapingOk(w, grace, w.reapers[id]);
    }
  }

  lemma UploadStep(grace: int, window: int, w: World, s: Step, w': World)
    requires Inv(w, grace) && Next(grace, window, w, s, w') && (s.Tick? || s.Upload? || s.Discard? || s.Abandon?)
    ensures Inv(w', grace)
  {
    hide Refers, NewPaths, AppendAnswer, Extended, StoreOk, KnownPaths, Prompt;
    forall id <- w'.reapers
      ensures ReapingOk(w', grace, w'.reapers[id])
    {
      assert ReapingOk(w, grace, w.reapers[id]);
    }
  }

  /** A step that changes only the reapers, one of them at most to `r`. */
  lemma ReapersChanged(grace: int, w: World, id: nat, r: Reaping)
    requires Inv(w, grace) && ReapingOk(w, grace, r)
    ensures Inv(w.(reapers := w.reapers[id := r]), grace)
  {
    hide Refers, StoreOk, UploadsOk;
    var w' := w.(reapers := w.reapers[id := r]);
    assert UploadsOk(w', grace) by { SameUploads(w, w', grace); }
    forall other <- w'.reapers
      ensures ReapingOk(w', grace, w'.reapers[other])
    {
      assert other != id ==> ReapingOk(w, grace, w.reapers[other]);
    }
  }

  lemma SameUploads(w: World, w': World, grace: int)
    requires UploadsOk(w, grace) && w' == w.(reapers := w'.reapers)
    ensures UploadsOk(w', grace)
  {
  }

  lemma ReadIsOk(grace: int, w: World, id: nat)
    requires Inv(w, grace) && |w.logs| <= LISTING_LIMIT && id in w.reapers
    ensures ReapingOk(w, grace, w.reapers[id].(known := Some(KnownPaths(w.logs))))
  {
    hide Refers, StoreOk, KnownPaths, UploadsOk, ReferencesOk;
    assert ReapingOk(w, grace, w.reapers[id]);
    forall path
      ensures path in KnownPaths(w.logs) <==> Refers(w.logs, path)
    {
      KnownIsReferenced(w.logs, path);
    }
  }

  lemma MarkIsOk(grace: int, w: World, id: nat, path: string)
    requires Inv(w, grace) && id in w.reapers && w.reapers[id].known.Some?
    requires path in w.objects && path !in w.reapers[id].known.value && w.objects[path] <= w.reapers[id].cutoff
    ensures ReapingOk(w, grace, w.reapers[id].(doomed := w.reapers[id].doomed + {path}))
  {
    hide Refers, StoreOk;
    assert ReapingOk(w, grace, w.reapers[id]);
  }

  lemma ReaperStep(grace: int, window: int, w: World, s: Step, w': World)
    requires Inv(w, grace) && |w.logs| <= LISTING_LIMIT && Next(grace, window, w, s, w')
    requires s.Start? || s.Read? || s.Mark? || s.Stop?
    ensures Inv(w', grace)
  {
    hide Refers, AppendAnswer, Extended, StoreOk, KnownPaths, Prompt, UploadsOk, ReferencesOk;
    match s {
      case Start(id) => ReapersChanged(grace, w, id, Reaping(w.now - grace, None, {}));
      case Read(id) =>
        ReadIsOk(grace, w, id);
        ReapersChanged(grace, w, id, w'.reapers[id]);
      case Mark(id, path) =>
        MarkIsOk(grace, w, id, path);
        ReapersChanged(grace, w, id, w'.reapers[id]);
      case Stop(id) => ReaperStopped(grace, w, id);
    }
  }

  lemma ReaperStopped(grace: int, w: World, id: nat)
    requires Inv(w, grace)
    ensures Inv(w.(reapers := w.reapers - {id}), grace)
  {
    hide Refers, StoreOk;
    var w' := w.(reapers := w.reapers - {id});
    forall other <- w'.reapers
      ensures ReapingOk(w', grace, w'.reapers[other])
    {
      assert ReapingOk(w, grace, w.reapers[other]);
    }
  }

  lemma DeleteStep(grace: int, window: int, w: World, id: nat, path: string, w': World)
    requires Inv(w, grace) && Next(grace, window, w, Delete(id, path), w')
    ensures Inv(w', grace)
  {
    hide Refers, NewPaths, AppendAnswer, Extended, StoreOk, KnownPaths, Prompt;
    assert ReapingOk(w, grace, w.reapers[id]);
    forall other <- w'.reapers
      ensures ReapingOk(w', grace, w'.reapers[other])
    {
      assert ReapingOk(w, grace, w.reapers[other]);
    }
  }

  lemma NextKeepsInv(grace: int, window: int, w: World, s: Step, w': World)
    requires window <= grace && Inv(w, grace) && |w.logs| <= LISTING_LIMIT && Next(grace, window, w, s, w')
    ensures Inv(w', grace)
  {
    hide Next, UploadsOk, ReferencesOk, ReapingOk, StoreOk;
    match s {
      case Append(p, expected, e) => AppendStep(grace, window, w, p, expected, e, w');
      case Delete(id, path) => DeleteStep(grace, window, w, id, path, w');
      case Tick(_) => UploadStep(grace, window, w, s, w');
      case Upload(_) => UploadStep(grace, window, w, s, w');
      case Discard(_) => UploadStep(grace, window, w, s, w');
      case Abandon(_) => UploadStep(grace, window, w, s, w');
      case _ => ReaperStep(grace, window, w, s, w');
    }
  }

  lemma {:induction false} RunsKeepInv(grace: int, window: int, bound: nat, worlds: seq<World>, steps: seq<Step>, n: nat)
    requires window <= grace && bound <= LISTING_LIMIT && IsRun(grace, window, bound, worlds, steps) && n <= |steps|
    ensures Inv(worlds[n], grace)
  {
    hide Next, Inv, StoreOk;
    if n == 0 {
      StartIsOk(grace);
    } else {
      RunsKeepInv(grace, window, bound, worlds, steps, n - 1);
      assert Next(grace, window, worlds[n - 1], steps[n - 1], worlds[n - 1 + 1]);
      NextKeepsInv(grace, window, worlds[n - 1], steps[n - 1], worlds[n]);
    }
  }

  lemma StartIsOk(grace: int)
    ensures Inv(START, grace)
  {
  }

  // ------------------------------------------------------------------ theorems

  /** Whatever any submission references is in the store, however submits and reapers interleave. */
  lemma ReferencedIsStored(grace: int, window: int, bound: nat, worlds: seq<World>, steps: seq<Step>, n: nat, path: string)
    requires window <= grace && bound <= LISTING_LIMIT && IsRun(grace, window, bound, worlds, steps)
    requires n <= |steps| && Refers(worlds[n].logs, path)
    ensures path in worlds[n].objects
  {
    hide Next, Refers, StoreOk;
    RunsKeepInv(grace, window, bound, worlds, steps, n);
  }

  lemma GoneStep(grace: int, window: int, w: World, s: Step, w': World, path: string)
    requires StoreOk(w.logs) && Next(grace, window, w, s, w') && path in w.used && path !in w.objects
    ensures path in w'.used && path !in w'.objects
  {
    hide StoreOk, AppendAnswer, Prompt, KnownPaths, Extended;
  }

  lemma {:induction false} GoneStaysGone(
      grace: int, window: int, bound: nat, worlds: seq<World>, steps: seq<Step>, m: nat, n: nat, path: string)
    requires IsRun(grace, window, bound, worlds, steps) && m <= n <= |steps|
    requires path in worlds[m].used && path !in worlds[m].objects
    ensures path in worlds[n].used && path !in worlds[n].objects
  {
    hide StoreOk, Next;
    if m < n {
      GoneStaysGone(grace, window, bound, worlds, steps, m, n - 1, path);
      assert Next(grace, window, worlds[n - 1], steps[n - 1], worlds[n - 1 + 1]);
      GoneStep(grace, window, worlds[n - 1], steps[n - 1], worlds[n], path);
    }
  }

  lemma ReferencesStep(grace: int, window: int, w: World, s: Step, w': World, path: string)
    requires StoreOk(w.logs) && StoreOk(w'.logs) && Next(grace, window, w, s, w') && Refers(w.logs, path)
    ensures Refers(w'.logs, path)
  {
    hide StoreOk, AppendAnswer, Prompt, KnownPaths, Extended, Refers;
    if s.Append? {
      ReferencesExtended(w.logs, s.e, path);
    }
  }

  lemma {:induction false} ReferencesStay(
      grace: int, window: int, bound: nat, worlds: seq<World>, steps: seq<Step>, m: nat, n: nat, path: string)
    requires IsRun(grace, window, bound, worlds, steps) && m <= n <= |steps| && Refers(worlds[m].logs, path)
    ensures Refers(worlds[n].logs, path)
  {
    hide StoreOk, Next, Refers;
    if m < n {
      ReferencesStay(grace, window, bound, worlds, steps, m, n - 1, path);
      assert Next(grace, window, worlds[n - 1], steps[n - 1], worlds[n - 1 + 1]);
      ReferencesStep(grace, window, worlds[n - 1], steps[n - 1], worlds[n], path);
    }
  }

  /** What a reaper deletes is referenced at no time, before or after. */
  lemma DeletedIsNeverReferenced(grace: int, window: int, bound: nat, worlds: seq<World>, steps: seq<Step>, i: nat, j: nat)
    requires window <= grace && bound <= LISTING_LIMIT && IsRun(grace, window, bound, worlds, steps)
    requires i < |steps| && steps[i].Delete? && j <= |steps|
    ensures !Refers(worlds[j].logs, steps[i].path)
  {
    hide StoreOk, Refers;
    var path, last := steps[i].path, |steps|;
    RunsKeepInv(grace, window, bound, worlds, steps, i);
    assert Next(grace, window, worlds[i], steps[i], worlds[i + 1]);
    GoneStaysGone(grace, window, bound, worlds, steps, i + 1, last, path);
    if Refers(worlds[j].logs, path) {
      ReferencesStay(grace, window, bound, worlds, steps, j, last, path);
      ReferencedIsStored(grace, window, bound, worlds, steps, last, path);
    }
  }

  // ------------------------------------------------- how slow a submit may be

  function Referencing(path: string): Event {
    Event("s", "a", 1, "", Customer, 0,
          Submitted(map[], [AttachmentMeta("s", "a", "", 1, "", path, "", 0, 0, false, 0, "")]))
  }

  /** A submit whose append comes exactly `grace` after its upload, just after the reaper. */
  function SlowSteps(grace: int, path: string): seq<Step> {
    [Step.Upload(path), Tick(grace), Start(0), Read(0), Mark(0, path), Delete(0, path), Append(SYSTEM, 0, Referencing(path))]
  }

  ghost function SlowWorlds(grace: int, path: string): (worlds: seq<World>)
    ensures |worlds| == 8
  {
    var stored := World(0, map[], map[path := 0], {path}, map[path := 0], map[]);
    var late := stored.(now := grace);
    var reading := late.(reapers := map[0 := Reaping(0, None, {})]);
    var known := late.(reapers := map[0 := Reaping(0, Some(KnownPaths(map[])), {})]);
    var marked := late.(reapers := map[0 := Reaping(0, Some(KnownPaths(map[])), {path})]);
    var deleted := late.(objects := map[], reapers := map[0 := Reaping(0, Some(KnownPaths(map[])), {})]);
    var appended := deleted.(logs := map["s" := [Referencing(path)]], inFlight := map[]);
    [START, stored, late, reading, known, marked, deleted, appended]
  }

  lemma SlowReferences(path: string)
    ensures WellFormed([Referencing(path)]) && StoreOk(map["s" := [Referencing(path)]])
    ensures Refers(map["s" := [Referencing(path)]], path)
    ensures NewPaths(Referencing(path)) == {path}
  {
    var e := Referencing(path);
    var metas := e.payload.attachments;
    assert metas[0].storagePath == path;
    assert Paths(metas) == {path};
    assert StateOf([e]).attachments == metas;
    var logs: Logs := map["s" := [e]];
    assert "s" in logs && path in Paths(StateOf(logs["s"]).attachments);
  }

  lemma NothingKnown(path: string)
    ensures path !in KnownPaths(map[])
  {
    var none: Logs := map[];
    assert |none| == 0;
    KnownIsReferenced(none, path);
  }

  lemma SlowEarlySteps(grace: int, window: int, path: string, i: nat)
    requires 0 <= grace && i < 3
    ensures Next(grace, window, SlowWorlds(grace, path)[i], SlowSteps(grace, path)[i], SlowWorlds(grace, path)[i + 1])
  {
    hide KnownPaths;
  }

  lemma SlowReaperSteps(grace: int, window: int, path: string, i: nat)
    requires 0 <= grace && 3 <= i < 6
    ensures Next(grace, window, SlowWorlds(grace, path)[i], SlowSteps(grace, path)[i], SlowWorlds(grace, path)[i + 1])
  {
    NothingKnown(path);
    hide KnownPaths;
    var known := KnownPaths(map[]);
    assert {path} - {path} == {} && {} + {path} == {path};
  }

  lemma SlowAppend(grace: int, window: int, path: string)
    requires 0 <= grace < window
    ensures Next(grace, window, SlowWorlds(grace, path)[6], SlowSteps(grace, path)[6], SlowWorlds(grace, path)[7])
  {
    SlowReferences(path);
    hide KnownPaths, NewPaths;
    var e := Referencing(path);
    assert [] + [e] == [e];
  }

  /** A submit that takes `grace` to append can find its object deleted. */
  lemma SlowSubmitLoses(grace: int, window: int, bound: nat, path: string)
    requires 0 <= grace < window && bound >= 1
    ensures IsRun(grace, window, bound, SlowWorlds(grace, path), SlowSteps(grace, path))
    ensures StoreOk(SlowWorlds(grace, path)[7].logs)
    ensures Refers(SlowWorlds(grace, path)[7].logs, path) && path !in SlowWorlds(grace, path)[7].objects
  {
    SlowReferences(path);
    var worlds, steps := SlowWorlds(grace, path), SlowSteps(grace, path);
    hide KnownPaths, Refers, Next;
    forall i | 0 <= i < 7
      ensures StoreOk(worlds[i].logs) && Next(grace, window, worlds[i], steps[i], worlds[i + 1])
    {
      if i < 3 {
        SlowEarlySteps(grace, window, path, i);
      } else if i < 6 {
        SlowReaperSteps(grace, window, path, i);
      } else {
        SlowAppend(grace, window, path);
      }
    }
  }

  /** Every reference is to a stored object. */
  ghost predicate Safe(worlds: seq<World>) {
    forall n, path :: 0 <= n < |worlds| && StoreOk(worlds[n].logs) && Refers(worlds[n].logs, path) ==> path in worlds[n].objects
  }

  // ------------------------------------------------ how many there may be

  /** The `i`-th submit of a crowd; only the first one has an attachment. */
  function CrowdEvent(i: nat, path: string): Event {
    Event(Named(i), "a", 1, "", Customer, i,
          Submitted(map[], if i == 0 then [AttachmentMeta(Named(0), "a", "", 1, "", path, "", 0, 0, false, 0, "")] else []))
  }

  function CrowdLogs(k: nat, path: string): Logs {
    map i | 0 <= i < k :: Named(i) := [CrowdEvent(i, path)]
  }

  lemma CrowdLogsOk(k: nat, path: string)
    ensures StoreOk(CrowdLogs(k, path)) && |CrowdLogs(k, path)| == k
    ensures CrowdLogs(k, path).Keys == set i | 0 <= i < k :: Named(i)
    ensures forall i :: 0 <= i < k ==> Named(i) in CrowdLogs(k, path) && CrowdLogs(k, path)[Named(i)] == [CrowdEvent(i, path)]
  {
    NamesCount(k);
    assert CrowdLogs(k, path).Keys == set i | 0 <= i < k :: Named(i);
    assert |CrowdLogs(k, path).Keys| == |CrowdLogs(k, path)|;
  }

  lemma CrowdReferences(k: nat, path: string, i: nat)
    requires i < k
    ensures StoreOk(CrowdLogs(k, path)) && Named(i) in CrowdLogs(k, path)
    ensures path in Paths(StateOf(CrowdLogs(k, path)[Named(i)]).attachments) <==> i == 0
  {
    hide Named, CrowdLogs, StoreOk;
    CrowdLogsOk(k, path);
    var e := CrowdEvent(i, path);
    WellFormedFirst(e);
    if i == 0 {
      assert e.payload.attachments[0].storagePath == path;
    }
  }

  lemma WellFormedFirst(e: Event)
    requires e.seqNo == 1 && e.payload.Submitted?
    ensures WellFormed([e]) && StateOf([e]).attachments == e.payload.attachments
  {
  }

  /** In a crowd beyond the limit the reaper does not know the oldest submission's object, which is referenced. */
  lemma CrowdHides(path: string)
    ensures var logs := CrowdLogs(LISTING_LIMIT + 1, path);
            StoreOk(logs) && Refers(logs, path) && path !in KnownPaths(logs)
  {
    hide StateOf, Named, CrowdLogs, Paths, KnownPaths, WellFormed;
    var n := LISTING_LIMIT + 1;
    var logs := CrowdLogs(n, path);
    CrowdReferences(n, path, 0);
    CrowdIsNewer(n, path);
    KnownIff(logs, path);
    forall sid <- logs | path in Paths(StateOf(logs[sid]).attachments)
      ensures |NewerIds(logs, sid)| >= LISTING_LIMIT
    {
      CrowdLogsOk(n, path);
      var i :| 0 <= i < n && sid == Named(i);
      CrowdReferences(n, path, i);
    }
  }

  lemma CrowdIsNewer(n: nat, path: string)
    requires n > 0
    ensures StoreOk(CrowdLogs(n, path)) && Named(0) in CrowdLogs(n, path)
    ensures |NewerIds(CrowdLogs(n, path), Named(0))| == n - 1
  {
    hide Named, CrowdLogs, WellFormed;
    CrowdLogsOk(n, path);
    var logs, keys := CrowdLogs(n, path), CrowdLogs(n, path).Keys;
    NewerIrreflexive(KeyOf(logs, Named(0)));
    forall i | 0 <= i < n
      ensures KeyOf(logs, Named(i)) == Key(i, Named(i))
    {
    }
    assert NewerIds(logs, Named(0)) == keys - {Named(0)};
  }

  function CrowdWorld(k: nat, path: string): World {
    World(0, CrowdLogs(k, path), map[path := 0], {path}, if k == 0 then map[path := 0] else map[], map[])
  }

  ghost predicate EndsIn(grace: int, window: int, bound: nat, worlds: seq<World>, steps: seq<Step>, w: World) {
    IsRun(grace, window, bound, worlds, steps) && worlds[|steps|] == w
  }

  lemma RunOneMore(
      grace: int, window: int, bound: nat, worlds: seq<World>, steps: seq<Step>, w: World, s: Step, w': World)
    requires EndsIn(grace, window, bound, worlds, steps, w) && StoreOk(w.logs) && Next(grace, window, w, s, w')
    requires StoreOk(w'.logs) && |w'.logs| <= bound
    ensures EndsIn(grace, window, bound, worlds + [w'], steps + [s], w')
  {
    hide Next, StoreOk;
    var worlds', steps' := worlds + [w'], steps + [s];
    forall i | 0 <= i < |steps'|
      ensures Next(grace, window, worlds'[i], steps'[i], worlds'[i + 1])
    {
      if i < |steps| {
        assert Next(grace, window, worlds[i], steps[i], worlds[i + 1]);
        assert worlds'[i] == worlds[i] && worlds'[i + 1] == worlds[i + 1] && steps'[i] == steps[i];
      }
    }
  }

  lemma CrowdStep(window: int, grace: int, k: nat, path: string)
    requires window >= 1
    ensures StoreOk(CrowdLogs(k, path))
    ensures Next(grace, window, CrowdWorld(k, path), Append(SYSTEM, 0, CrowdEvent(k, path)), CrowdWorld(k + 1, path))
  {
    hide CrowdLogs, KnownPaths, StoreOk, AppendAnswer, Extended, Prompt;
    CrowdLogsOk(k, path);
    CrowdAppends(k, path);
    CrowdIsPrompt(window, k, path);
  }

  lemma CrowdAppends(k: nat, path: string)
    ensures var logs, e := CrowdLogs(k, path), CrowdEvent(k, path);
            && StoreOk(logs) && AppendAnswer(logs, SYSTEM, e.submissionId, 0, e).Ok? && Extended(logs, e) == CrowdLogs(k + 1, path)
  {
    hide Named, StoreOk, CrowdLogs;
    CrowdLogsOk(k, path);
    CrowdGrows(k, path);
    NotYetThere(k, path);
    var e := CrowdEvent(k, path);
    assert [] + [e] == [e];
  }

  lemma CrowdGrows(k: nat, path: string)
    ensures CrowdLogs(k + 1, path) == CrowdLogs(k, path)[Named(k) := [CrowdEvent(k, path)]]
  {
    hide StoreOk, CrowdEvent, CrowdLogs;
    CrowdLogsOk(k, path);
    CrowdLogsOk(k + 1, path);
    var next, grown := CrowdLogs(k + 1, path), CrowdLogs(k, path)[Named(k) := [CrowdEvent(k, path)]];
    forall i | 0 <= i < k
      ensures Named(i) != Named(k)
    {
    }
    assert next.Keys == grown.Keys;
    assert forall i :: 0 <= i <= k ==> next[Named(i)] == grown[Named(i)];
  }

  lemma CrowdIsPrompt(window: int, k: nat, path: string)
    requires window >= 1
    ensures Prompt(CrowdWorld(k, path), window, CrowdEvent(k, path))
    ensures CrowdWorld(k, path).inFlight - NewPaths(CrowdEvent(k, path)) == CrowdWorld(k + 1, path).inFlight
  {
    hide CrowdLogs, CrowdEvent, NewPaths;
    NewOfCrowd(k, path);
  }

  lemma NotYetThere(k: nat, path: string)
    ensures Named(k) !in CrowdLogs(k, path)
  {
  }

  lemma NewOfCrowd(k: nat, path: string)
    ensures NewPaths(CrowdEvent(k, path)) == if k == 0 then {path} else {}
  {
    if k == 0 {
      assert CrowdEvent(k, path).payload.attachments[0].storagePath == path;
    }
  }

  /** Submits alone lead to a crowd. */
  lemma {:induction false} CrowdGathers(grace: int, window: int, bound: nat, k: nat, path: string)
    returns (worlds: seq<World>, steps: seq<Step>)
    requires window >= 1 && k <= bound
    ensures EndsIn(grace, window, bound, worlds, steps, CrowdWorld(k, path))
  {
    hide CrowdLogs, StoreOk, IsRun;
    if k == 0 {
      worlds, steps := CrowdBegins(grace, window, bound, path);
    } else {
      worlds, steps := CrowdGathers(grace, window, bound, k - 1, path);
      CrowdStep(window, grace, k - 1, path);
      CrowdLogsOk(k, path);
      RunOneMore(
        grace, window, bound, worlds, steps, CrowdWorld(k - 1, path), Append(SYSTEM, 0, CrowdEvent(k - 1, path)), CrowdWorld(k, path));
      worlds, steps := worlds + [CrowdWorld(k, path)], steps + [Append(SYSTEM, 0, CrowdEvent(k - 1, path))];
    }
  }

  lemma CrowdBegins(grace: int, window: int, bound: nat, path: string)
    returns (worlds: seq<World>, steps: seq<Step>)
    ensures EndsIn(grace, window, bound, worlds, steps, CrowdWorld(0, path))
  {
    var none: Logs := map[];
    assert CrowdLogs(0, path) == none && |none| == 0;
    assert Next(grace, window, START, Step.Upload(path), CrowdWorld(0, path));
    worlds, steps := [START, CrowdWorld(0, path)], [Step.Upload(path)];
  }

  /** From a world with this object old enough and unknown, a reaper goes through these. */
  ghost function ReapedWorlds(w: World, grace: int, path: string): (worlds: seq<World>)
    requires StoreOk(w.logs)
    ensures |worlds| == 6
  {
    var late := w.(now := grace);
    var known := Some(KnownPaths(w.logs));
    [w, late, late.(reapers := map[0 := Reaping(0, None, {})]), late.(reapers := map[0 := Reaping(0, known, {})]),
     late.(reapers := map[0 := Reaping(0, known, {path})]),
     late.(objects := w.objects - {path}, reapers := map[0 := Reaping(0, known, {})])]
  }

  function ReapedSteps(grace: int, path: string): seq<Step> {
    [Tick(grace), Start(0), Read(0), Mark(0, path), Delete(0, path)]
  }

  lemma ReapedStep(grace: int, window: int, w: World, path: string, i: nat)
    requires 0 <= grace && i < 5 && w.now == 0 && w.reapers == map[] && StoreOk(w.logs)
    requires path in w.objects && w.objects[path] == 0 && path !in KnownPaths(w.logs)
    ensures ReapedWorlds(w, grace, path)[i].logs == w.logs == ReapedWorlds(w, grace, path)[i + 1].logs
    ensures Next(grace, window, ReapedWorlds(w, grace, path)[i], ReapedSteps(grace, path)[i], ReapedWorlds(w, grace, path)[i + 1])
  {
    hide StoreOk, KnownPaths, AppendAnswer, Extended, Prompt;
    var none: set<string> := {};
    assert none + {path} == {path} && {path} - {path} == none;
  }

  lemma {:induction false} ReaperComes(
      grace: int, window: int, bound: nat, worlds: seq<World>, steps: seq<Step>, w: World, path: string, n: nat)
    returns (worlds': seq<World>, steps': seq<Step>)
    requires EndsIn(grace, window, bound, worlds, steps, w) && n <= 5 && |w.logs| <= bound
    requires 0 <= grace && w.now == 0 && w.reapers == map[] && StoreOk(w.logs)
    requires path in w.objects && w.objects[path] == 0 && path !in KnownPaths(w.logs)
    ensures EndsIn(grace, window, bound, worlds', steps', ReapedWorlds(w, grace, path)[n])
  {
    hide StoreOk, KnownPaths, IsRun, Next;
    if n == 0 {
      worlds', steps' := worlds, steps;
    } else {
      worlds', steps' := ReaperComes(grace, window, bound, worlds, steps, w, path, n - 1);
      hide ReapedWorlds, ReapedSteps;
      ReapedStep(grace, window, w, path, n - 1);
      var next, step := ReapedWorlds(w, grace, path)[n], ReapedSteps(grace, path)[n - 1];
      RunOneMore(grace, window, bound, worlds', steps', ReapedWorlds(w, grace, path)[n - 1], step, next);
      worlds', steps' := worlds' + [next], steps' + [step];
    }
  }

  /** A reaper that comes when the crowd's first object is old enough deletes it. */
  lemma CrowdLoses(grace: int, window: int, bound: nat, path: string)
    returns (worlds: seq<World>, steps: seq<Step>, w: World)
    requires 0 <= grace && window >= 1 && bound > LISTING_LIMIT
    ensures EndsIn(grace, window, bound, worlds, steps, w) && StoreOk(w.logs) && Refers(w.logs, path) && path !in w.objects
  {
    hide CrowdLogs, StoreOk, KnownPaths, Refers, IsRun;
    var n := LISTING_LIMIT + 1;
    worlds, steps := CrowdGathers(grace, window, bound, n, path);
    CrowdLogsOk(n, path);
    CrowdHides(path);
    w := ReapedWorlds(CrowdWorld(n, path), grace, path)[5];
    worlds, steps := ReaperComes(grace, window, bound, worlds, steps, CrowdWorld(n, path), path, 5);
  }

  /**
   All runs are safe exactly when submits append less than the grace period after their uploads and there are never more
   submissions than the reaper lists.
   */
  lemma SafeIff(grace: int, window: int, bound: nat)
    requires 0 <= grace && window >= 1 && bound >= 1
    ensures (forall worlds, steps :: IsRun(grace, window, bound, worlds, steps) ==> Safe(worlds)) <==>
            window <= grace && bound <= LISTING_LIMIT
  {
    hide Refers, IsRun, SlowWorlds, SlowSteps, Next;
    if window > grace {
      SlowSubmitLoses(grace, window, bound, "p");
      LastIsUnsafe(SlowWorlds(grace, "p"), "p");
    } else if bound > LISTING_LIMIT {
      var worlds, steps, w := CrowdLoses(grace, window, bound, "p");
      RunLength(grace, window, bound, worlds, steps);
      LastIsUnsafe(worlds, "p");
    } else {
      forall worlds, steps | IsRun(grace, window, bound, worlds, steps)
        ensures Safe(worlds)
      {
        RunIsSafe(grace, window, bound, worlds, steps);
      }
    }
  }

  lemma RunLength(grace: int, window: int, bound: nat, worlds: seq<World>, steps: seq<Step>)
    requires IsRun(grace, window, bound, worlds, steps)
    ensures |worlds| == |steps| + 1
  {
  }

  lemma RunIsSafe(grace: int, window: int, bound: nat, worlds: seq<World>, steps: seq<Step>)
    requires window <= grace && bound <= LISTING_LIMIT && IsRun(grace, window, bound, worlds, steps)
    ensures Safe(worlds)
  {
    hide Refers, Next;
    forall n, path | 0 <= n < |worlds| && StoreOk(worlds[n].logs) && Refers(worlds[n].logs, path)
      ensures path in worlds[n].objects
    {
      ReferencedIsStored(grace, window, bound, worlds, steps, n, path);
    }
  }

  lemma LastIsUnsafe(worlds: seq<World>, path: string)
    requires |worlds| > 0 && StoreOk(worlds[|worlds| - 1].logs)
    requires Refers(worlds[|worlds| - 1].logs, path) && path !in worlds[|worlds| - 1].objects
    ensures !Safe(worlds)
  {
    hide Refers;
    var n := |worlds| - 1;
    assert !(StoreOk(worlds[n].logs) && Refers(worlds[n].logs, path) ==> path in worlds[n].objects);
  }
}
