// The Paperless tag synchronisation of ONE insurance policy as a state machine:
// the rows the API, the document service and the worker share, and what each
// of their operations does to those rows.
module TagModel {
  import opened Wrappers
  import opened Text

  datatype StorageType = Internal | PaperlessLink

  datatype TaggingStatus = TaggingPending | Applied | TaggingFailed

  /** A document row. `verifiedFor` is history, not a column: the tag id of the
      last assignment the worker verified for this row. */
  datatype Doc = Doc(
    storageType: StorageType,
    storageRef: Option<int>,
    fileName: string,
    documentDate: Option<int>,
    mimeType: Option<string>,
    linkOriginManual: bool,
    linkOriginTag: bool,
    archived: bool,
    tagging: Option<TaggingStatus>,
    taggingError: Option<string>,
    verifiedFor: Option<int>)
  {
    predicate ActiveLink() { storageType.PaperlessLink? && !archived }

    predicate ActiveLinkTo(ref: int) { ActiveLink() && storageRef == Some(ref) }
  }

  datatype SyncStatus = SyncPending | SyncActive | SyncError

  datatype Config = Config(
    tagId: int,
    tagName: Option<string>,
    connection: string,
    version: nat,
    syncStatus: SyncStatus,
    syncError: Option<string>,
    lastSynced: Option<int>)

  datatype JobKind = SyncPolicy | TagDocument(doc: nat)

  datatype JobStatus = Pending | Running | Completed | Failed | Skipped

  datatype Progress = Progress(processed: nat, total: Option<nat>, added: nat, removed: nat, untouched: nat)

  const NO_PROGRESS := Progress(0, None, 0, 0, 0)

  const DEFAULT_MAX_RETRIES: nat := 3

  /** An outbox row. `handlings` is history, not a column: how often a worker
      has finished handling the row. */
  datatype Job = Job(
    kind: JobKind,
    status: JobStatus,
    version: nat,
    retryCount: nat,
    maxRetries: nat,
    error: Option<string>,
    progress: Progress,
    handlings: nat)
  {
    predicate Active() { status.Pending? || status.Running? }
  }

  function NewJob(kind: JobKind, version: nat): Job {
    Job(kind, Pending, version, 0, DEFAULT_MAX_RETRIES, None, NO_PROGRESS, 0)
  }

  /** What a running handler read before it started to talk to Paperless. */
  datatype Attempt = Attempt(version: nat, tagId: int, retryCount: nat)

  datatype State = State(
    config: Option<Config>,
    docs: map<nat, Doc>,
    jobs: map<nat, Job>,
    nextDoc: nat,
    nextJob: nat,
    policyArchived: bool,
    inflight: map<nat, Attempt>)
  {
    predicate ConfigIs(version: nat) { config.Some? && config.value.version == version }

    predicate HasActive(kind: JobKind) { exists id :: id in jobs && jobs[id].kind == kind && jobs[id].Active() }

    predicate Linked(ref: int) { exists id :: id in docs && docs[id].ActiveLinkTo(ref) }

    function AddJob(kind: JobKind, version: nat): State {
      this.(jobs := jobs[nextJob := NewJob(kind, version)], nextJob := nextJob + 1)
    }

    function PutJob(id: nat, job: Job): State { this.(jobs := jobs[id := job]) }

    function PutDoc(id: nat, doc: Doc): State { this.(docs := docs[id := doc]) }
  }

  /** A document as the remote list reports it; `created` is the parsed date,
      None when the server sent none or an unusable one. */
  datatype RemoteDoc = RemoteDoc(paperlessId: int, title: Option<string>, created: Option<int>, mimeType: Option<string>)

  // --- Metadata -------------------------------------------------------------

  datatype MetadataUpdate = MetadataUpdate(fileName: Option<string>, documentDate: Option<int>, mimeType: Option<string>)

  const NO_UPDATE := MetadataUpdate(None, None, None)

  function TrimOption(s: Option<string>): string { if s.Some? then Trim(s.value) else "" }

  function DeriveTagLinkMetadata(remote: RemoteDoc, existing: Option<Doc>): MetadataUpdate {
    var auto := existing.None? || !existing.value.linkOriginManual;
    var title := TrimOption(remote.title);
    var currentName := if existing.Some? then Trim(existing.value.fileName) else "";
    var currentDate := if existing.Some? then existing.value.documentDate else None;
    var mime := TrimOption(remote.mimeType);
    var currentMime := if existing.Some? then existing.value.mimeType else None;
    MetadataUpdate(
      if title != "" && (if auto then currentName != title else currentName == "") then Some(title) else None,
      if remote.created.Some? && (auto || currentDate.None?) && currentDate != remote.created then remote.created else None,
      if mime != "" && (auto || currentMime.None?) && currentMime != Some(mime) then Some(mime) else None)
  }

  function ApplyMetadata(doc: Doc, update: MetadataUpdate): Doc {
    doc.(fileName := if update.fileName.Some? then update.fileName.value else doc.fileName,
         documentDate := if update.documentDate.Some? then update.documentDate else doc.documentDate,
         mimeType := if update.mimeType.Some? then update.mimeType else doc.mimeType)
  }

  function FallbackName(ref: int): string { "Paperless document " + IntToString(ref) }

  function NewTagDoc(ref: int, remote: RemoteDoc): Doc {
    var metadata := DeriveTagLinkMetadata(remote, None);
    Doc(PaperlessLink, Some(ref),
        if metadata.fileName.Some? then metadata.fileName.value else FallbackName(ref),
        metadata.documentDate, metadata.mimeType, false, true, false, None, None, None)
  }

  // --- Reconciliation, one write at a time ----------------------------------

  datatype Tally = Tally(added: nat, updated: nat, untouched: nat, removed: nat)

  datatype Phase = Walking | Aborted | Finished

  /** A running reconciliation: its snapshot of the active links and how far it
      has walked the remote list (`i`) and the local links (`j`). */
  datatype Run = Run(
    version: nat,
    snap: map<nat, Doc>,
    locals: seq<nat>,
    byRef: map<int, nat>,
    order: seq<int>,
    remote: map<int, RemoteDoc>,
    i: nat,
    j: nat,
    tally: Tally,
    phase: Phase)
  {
    predicate Valid() {
      && i <= |order| && j <= |locals|
      && (forall k :: 0 <= k < |locals| ==> locals[k] in snap)
      && (forall k :: 0 <= k < |order| ==> order[k] in remote)
      && (forall r :: r in byRef ==> byRef[r] in snap)
    }

    function Left(): nat requires Valid() { |order| - i + |locals| - j + if phase.Walking? then 1 else 0 }
  }

  /** Map insertion order: the position of the first occurrence of each id. */
  function RemoteOrder(remote: seq<RemoteDoc>): (r: seq<int>)
    ensures Distinct(r)
    ensures forall x :: x in r <==> exists k :: 0 <= k < |remote| && remote[k].paperlessId == x
  {
    if remote == [] then []
    else
      var n := |remote| - 1;
      var before := RemoteOrder(remote[..n]);
      assert forall k :: 0 <= k < n ==> remote[..n][k] == remote[k];
      if remote[n].paperlessId in before then before else before + [remote[n].paperlessId]
  }

  /** The last entry for an id wins. */
  function RemoteById(remote: seq<RemoteDoc>): (m: map<int, RemoteDoc>)
    ensures forall x :: x in m <==> x in RemoteOrder(remote)
    ensures forall x :: x in m ==> m[x].paperlessId == x
  {
    if remote == [] then map[]
    else
      var n := |remote| - 1;
      RemoteById(remote[..n])[remote[n].paperlessId := remote[n]]
  }

  /** The active links among `rows`, in the order of `rows`. */
  function LinksOf(docs: map<nat, Doc>, rows: seq<nat>): (r: seq<nat>)
    ensures forall x :: x in r <==> x in rows && x in docs && docs[x].ActiveLink()
    ensures Distinct(rows) ==> Distinct(r)
  {
    if rows == [] then []
    else
      var n := |rows| - 1;
      var before := LinksOf(docs, rows[..n]);
      assert rows == rows[..n] + [rows[n]];
      if rows[n] in docs && docs[rows[n]].ActiveLink() then before + [rows[n]] else before
  }

  function LinkSnapshot(docs: map<nat, Doc>, rows: seq<nat>): map<nat, Doc> {
    map id | id in LinksOf(docs, rows) :: docs[id]
  }

  function ByRef(snap: map<nat, Doc>, locals: seq<nat>): (m: map<int, nat>)
    requires forall k :: 0 <= k < |locals| ==> locals[k] in snap
    ensures forall r :: r in m ==> m[r] in locals && m[r] in snap && snap[m[r]].storageRef == Some(r)
    ensures forall k :: 0 <= k < |locals| && snap[locals[k]].storageRef.Some? ==> snap[locals[k]].storageRef.value in m
  {
    if locals == [] then map[]
    else
      var n := |locals| - 1;
      var before := ByRef(snap, locals[..n]);
      assert locals == locals[..n] + [locals[n]];
      assert forall k :: 0 <= k < n ==> locals[..n][k] == locals[k];
      if snap[locals[n]].storageRef.Some? then before[snap[locals[n]].storageRef.value := locals[n]] else before
  }

  function StartRun(docs: map<nat, Doc>, version: nat, remote: seq<RemoteDoc>, rows: seq<nat>): (run: Run)
    ensures run.Valid() && run.i == 0 && run.j == 0 && run.phase.Walking?
  {
    var snap := LinkSnapshot(docs, rows);
    var locals := LinksOf(docs, rows);
    Run(version, snap, locals, ByRef(snap, locals), RemoteOrder(remote), RemoteById(remote), 0, 0, Tally(0, 0, 0, 0), Walking)
  }

  /** The write for one remote document; `existing` and `id` come from the snapshot. */
  function WriteRemote(s: State, run: Run, ref: int): (r: (State, Tally))
    requires run.Valid() && ref in run.remote
  {
    var remote := run.remote[ref];
    if ref in run.byRef then
      var id := run.byRef[ref];
      var existing := run.snap[id];
      var update := DeriveTagLinkMetadata(remote, Some(existing));
      if (update != NO_UPDATE || !existing.linkOriginTag) && id in s.docs then
        var written := ApplyMetadata(s.docs[id], update);
        (s.PutDoc(id, if existing.linkOriginTag then written else written.(linkOriginTag := true)),
         run.tally.(updated := run.tally.updated + 1))
      else
        (s, run.tally.(untouched := run.tally.untouched + 1))
    else if s.Linked(ref) then
      // The partial unique index rejects the insert.
      (s.(docs := map id | id in s.docs :: if s.docs[id].ActiveLinkTo(ref) then s.docs[id].(linkOriginTag := true) else s.docs[id]),
       run.tally.(untouched := run.tally.untouched + 1))
    else
      (s.PutDoc(s.nextDoc, NewTagDoc(ref, remote)).(nextDoc := s.nextDoc + 1),
       run.tally.(added := run.tally.added + 1))
  }

  /** A local link whose tag was lost, judged by the snapshot. */
  predicate LostTag(snapshot: Doc, remote: map<int, RemoteDoc>) {
    snapshot.linkOriginTag && !(snapshot.storageRef.Some? && snapshot.storageRef.value in remote)
  }

  function DropTagOrigin(current: Doc, snapshot: Doc): Doc {
    if snapshot.linkOriginManual then current.(linkOriginTag := false)
    else current.(linkOriginTag := false, archived := true)
  }

  function RemoteStep(s: State, run: Run): (r: (State, Run))
    requires run.Valid() && run.phase.Walking? && run.i < |run.order|
    ensures r.1.Valid() && r.1.Left() < run.Left()
    ensures r.0 == s.(docs := r.0.docs, nextDoc := r.0.nextDoc)
    ensures r.1 == run.(i := r.1.i, j := r.1.j, tally := r.1.tally, phase := r.1.phase)
  {
    if !s.ConfigIs(run.version) then (s, run.(phase := Aborted))
    else
      var w := WriteRemote(s, run, run.order[run.i]);
      (w.0, run.(i := run.i + 1, tally := w.1))
  }

  function LocalStep(s: State, run: Run): (r: (State, Run))
    requires run.Valid() && run.phase.Walking? && run.j < |run.locals|
    ensures r.1.Valid() && r.1.Left() < run.Left()
    ensures r.0 == s.(docs := r.0.docs, nextDoc := r.0.nextDoc)
    ensures r.1 == run.(i := r.1.i, j := r.1.j, tally := r.1.tally, phase := r.1.phase)
  {
    var id := run.locals[run.j];
    if !LostTag(run.snap[id], run.remote) then (s, run.(j := run.j + 1))
    else if !s.ConfigIs(run.version) then (s, run.(phase := Aborted))
    else
      (if id in s.docs then s.PutDoc(id, DropTagOrigin(s.docs[id], run.snap[id])) else s,
       run.(j := run.j + 1, tally := run.tally.(removed := run.tally.removed + 1)))
  }

  /** One step: re-check the configuration version and write one document. */
  function RunStep(s: State, run: Run): (r: (State, Run))
    requires run.Valid()
    ensures r.1.Valid()
    ensures run.phase.Walking? ==> r.1.Left() < run.Left()
    ensures r.0 == s.(docs := r.0.docs, nextDoc := r.0.nextDoc)
  {
    if !run.phase.Walking? then (s, run)
    else if run.i < |run.order| then RemoteStep(s, run)
    else if run.j < |run.locals| then LocalStep(s, run)
    else (s, run.(phase := Finished))
  }

  /** The whole reconciliation without anything in between. */
  function RunAll(s: State, run: Run): (r: (State, Run))
    requires run.Valid()
    ensures r.1.Valid() && !r.1.phase.Walking?
    ensures r.0 == s.(docs := r.0.docs, nextDoc := r.0.nextDoc)
    decreases run.Left()
  {
    if !run.phase.Walking? then (s, run)
    else
      var next := RunStep(s, run);
      RunAll(next.0, next.1)
  }

  // --- Tag configuration (API) ----------------------------------------------

  function SupersedeJobs(jobs: map<nat, Job>, code: string): map<nat, Job> {
    map id | id in jobs :: if jobs[id].Active() then jobs[id].(status := Skipped, error := Some(code)) else jobs[id]
  }

  function ResolveTagName(name: string, clientName: Option<string>): Option<string> {
    if name != "" then Some(name) else if clientName.Some? && clientName.value != "" then clientName else None
  }

  function SetTag(s: State, tagId: int, name: string, clientName: Option<string>, connection: string): State {
    if s.policyArchived then s
    else
      var resolved := ResolveTagName(name, clientName);
      var saved :=
        if s.config.Some? then
          s.config.value.(tagId := tagId, tagName := resolved, connection := connection,
                          version := s.config.value.version + 1, syncStatus := SyncPending, syncError := None)
        else Config(tagId, resolved, connection, 1, SyncPending, None, None);
      var changed := s.config.Some? && s.config.value.tagId != tagId;
      s.(config := Some(saved),
         jobs := SupersedeJobs(s.jobs, "SUPERSEDED"),
         docs := map id | id in s.docs ::
           if changed && s.docs[id].linkOriginManual && s.docs[id].tagging == Some(Applied)
           then s.docs[id].(tagging := Some(TaggingPending), taggingError := None) else s.docs[id])
       .AddJob(SyncPolicy, saved.version)
  }

  function WithoutTag(doc: Doc): Doc {
    var untagged :=
      if doc.linkOriginTag && !doc.linkOriginManual then doc.(linkOriginTag := false, archived := true)
      else doc.(linkOriginTag := false);
    if untagged.linkOriginManual && !untagged.archived then untagged.(tagging := None, taggingError := None) else untagged
  }

  function RemoveTag(s: State): State {
    if s.policyArchived || s.config.None? then s
    else s.(config := None,
            jobs := SupersedeJobs(s.jobs, "TAG_REMOVED"),
            docs := map id | id in s.docs :: WithoutTag(s.docs[id]))
  }

  function RequestSync(s: State): State {
    if s.policyArchived || s.config.None? || s.HasActive(SyncPolicy) then s
    else s.AddJob(SyncPolicy, s.config.value.version)
  }

  predicate Retryable(doc: Doc) {
    doc.ActiveLink() && doc.storageRef.Some? && doc.linkOriginManual &&
    (doc.tagging == Some(TaggingPending) || doc.tagging == Some(TaggingFailed))
  }

  /** Marks a document for tagging and queues a job unless one is active. */
  function QueueTagging(s: State, id: nat, version: nat): (r: State)
    requires id in s.docs
    ensures r.docs == s.docs[id := s.docs[id].(tagging := Some(TaggingPending), taggingError := None)]
    ensures r == s.(docs := r.docs, jobs := r.jobs, nextJob := r.nextJob)
  {
    var marked := s.PutDoc(id, s.docs[id].(tagging := Some(TaggingPending), taggingError := None));
    if s.HasActive(TagDocument(id)) then marked else marked.AddJob(TagDocument(id), version)
  }

  function RetryRows(s: State, ids: seq<nat>, only: Option<nat>, version: nat): State
    decreases |ids|
  {
    if ids == [] then s
    else
      var n := |ids| - 1;
      var before := RetryRows(s, ids[..n], only, version);
      if ids[n] in before.docs && Retryable(before.docs[ids[n]]) && (only == None || only == Some(ids[n]))
      then QueueTagging(before, ids[n], version) else before
  }

  function RetryTagging(s: State, only: Option<nat>, rows: seq<nat>): State {
    if s.policyArchived || s.config.None? then s
    else RetryRows(s, rows, only, s.config.value.version)
  }

  // --- Document service -----------------------------------------------------

  predicate Blank(s: Option<string>) { s.None? || s.value == "" }

  function ApplyManualLinkOrigin(s: State, id: nat, meta: RemoteDoc): State
    requires id in s.docs
  {
    var doc := s.docs[id];
    var filled := doc.(mimeType := if Blank(doc.mimeType) && !Blank(meta.mimeType) then meta.mimeType else doc.mimeType,
                       documentDate := if doc.documentDate.None? then meta.created else doc.documentDate,
                       linkOriginManual := true);
    var linked := s.PutDoc(id, filled);
    if s.config.None? then linked else QueueTagging(linked, id, s.config.value.version)
  }

  function NewManualDoc(meta: RemoteDoc): Doc {
    var title := TrimOption(meta.title);
    Doc(PaperlessLink, Some(meta.paperlessId), if title != "" then title else FallbackName(meta.paperlessId),
        meta.created, meta.mimeType, true, false, false, None, None, None)
  }

  /** Links a Paperless document; `found` is the row the query returned, if any. */
  function LinkDocument(s: State, meta: RemoteDoc, found: Option<nat>): State {
    if found.Some? then
      if found.value in s.docs && s.docs[found.value].ActiveLinkTo(meta.paperlessId)
      then ApplyManualLinkOrigin(s, found.value, meta) else s
    else if s.Linked(meta.paperlessId) then s
    else ApplyManualLinkOrigin(s.PutDoc(s.nextDoc, NewManualDoc(meta)).(nextDoc := s.nextDoc + 1), s.nextDoc, meta)
  }

  function RemoveDocument(s: State, id: nat): State {
    if id !in s.docs || s.docs[id].archived then s
    else if s.docs[id].linkOriginTag && s.docs[id].linkOriginManual
    then s.PutDoc(id, s.docs[id].(linkOriginManual := false))
    else s.PutDoc(id, s.docs[id].(archived := true))
  }

  // --- Worker ---------------------------------------------------------------

  function SkipJob(job: Job, code: string): Job {
    job.(status := Skipped, error := Some(code), handlings := job.handlings + 1)
  }

  function RetryOrFail(job: Job, retryCount: nat, maxRetries: nat, code: string): Job {
    if retryCount < maxRetries
    then job.(status := Pending, retryCount := job.retryCount + 1, error := Some(code), handlings := job.handlings + 1)
    else job.(status := Failed, error := Some(code), handlings := job.handlings + 1)
  }

  function ConfigFailed(s: State, version: nat, code: string): State {
    if s.ConfigIs(version)
    then s.(config := Some(s.config.value.(syncStatus := SyncError, syncError := Some(code)))) else s
  }

  predicate Settled(job: Job) { job.status.Completed? || job.status.Skipped? }

  predicate ConnectionDrift(config: Config, baseUrl: string) {
    config.connection != "" && baseUrl != "" && config.connection != baseUrl
  }

  /** The checks both handlers make first: a skip code, or None to go on. */
  function SkipCode(s: State, version: nat, baseUrl: string): Option<string> {
    if !s.ConfigIs(version) then Some("STALE_CONFIG")
    else if s.policyArchived then Some("POLICY_ARCHIVED")
    else if ConnectionDrift(s.config.value, baseUrl) then Some("CONNECTION_CHANGED")
    else None
  }

  function SkipWith(s: State, id: nat, version: nat, code: string): State
    requires id in s.jobs
  {
    (if code == "CONNECTION_CHANGED" then ConfigFailed(s, version, code) else s).PutJob(id, SkipJob(s.jobs[id], code))
  }

  function Begin(s: State, id: nat, running: Job): State
    requires id in s.jobs && s.config.Some?
  {
    s.PutJob(id, running.(status := Running))
     .(inflight := s.inflight[id := Attempt(running.version, s.config.value.tagId, running.retryCount)])
  }

  function BeginSync(s: State, id: nat, baseUrl: string): State {
    if id !in s.jobs || Settled(s.jobs[id]) then s
    else
      var job := s.jobs[id];
      var code := SkipCode(s, job.version, baseUrl);
      if code.Some? then SkipWith(s, id, job.version, code.value)
      else Begin(s, id, job.(progress := NO_PROGRESS))
  }

  datatype SyncAnswer =
    | LookupFailed(code: string)
    | ListFailed
    | Listed(name: string, remote: seq<RemoteDoc>)

  function ToProgress(tally: Tally, total: nat): Progress {
    Progress(tally.added + tally.untouched + tally.updated, Some(total), tally.added, tally.removed,
             tally.untouched + tally.updated)
  }

  predicate NeedsBackfill(doc: Doc) {
    doc.ActiveLink() && doc.linkOriginManual && doc.storageRef.Some? && doc.tagging != Some(Applied)
  }

  function BackfillRows(s: State, ids: seq<nat>, version: nat): State
    decreases |ids|
  {
    if ids == [] then s
    else
      var n := |ids| - 1;
      var before := BackfillRows(s, ids[..n], version);
      if ids[n] in before.docs && NeedsBackfill(before.docs[ids[n]]) && !before.HasActive(TagDocument(ids[n]))
      then QueueTagging(before, ids[n], version) else before
  }

  function Backfill(s: State, version: nat, rows: seq<nat>): State {
    if s.ConfigIs(version) then BackfillRows(s, rows, version) else s
  }

  /** What the handler writes after the reconciliation `run` has ended. */
  function FinishSync(s: State, id: nat, version: nat, name: string, total: nat, now: int, run: Run, rows: seq<nat>): State
    requires id in s.jobs
  {
    var job := s.jobs[id].(progress := ToProgress(run.tally, total), handlings := s.jobs[id].handlings + 1);
    if run.phase.Aborted? then s.PutJob(id, job.(status := Skipped, error := Some("STALE_CONFIG")))
    else
      var active :=
        if s.ConfigIs(version)
        then s.(config := Some(s.config.value.(lastSynced := Some(now), syncStatus := SyncActive, syncError := None, tagName := Some(name))))
        else s;
      Backfill(active.PutJob(id, job.(status := Completed, error := None)), version, rows)
  }

  function EndSync(s: State, id: nat, answer: SyncAnswer, now: int, rows: seq<nat>): State {
    if id !in s.inflight || id !in s.jobs then s
    else
      var a := s.inflight[id];
      var job := s.jobs[id];
      var idle := s.(inflight := s.inflight - {id});
      match answer
      case LookupFailed(code) =>
        if code == "UNREACHABLE" then idle.PutJob(id, RetryOrFail(job, a.retryCount, job.maxRetries, code))
        else ConfigFailed(idle, a.version, code).PutJob(id, RetryOrFail(job, job.maxRetries, job.maxRetries, code))
      case ListFailed =>
        ConfigFailed(idle, a.version, "SYNC_FAILED").PutJob(id, RetryOrFail(job, a.retryCount, job.maxRetries, "SYNC_FAILED"))
      case Listed(name, remote) =>
        var start := StartRun(s.docs, a.version, remote, rows);
        var run := RunAll(idle, start);
        FinishSync(run.0, id, a.version, name, |remote|, now, run.1, rows)
  }

  function BeginTag(s: State, id: nat, baseUrl: string): State {
    if id !in s.jobs || Settled(s.jobs[id]) || !s.jobs[id].kind.TagDocument? then s
    else
      var job := s.jobs[id];
      var code := SkipCode(s, job.version, baseUrl);
      if code.Some? then SkipWith(s, id, job.version, code.value)
      else if !(job.kind.doc in s.docs && s.docs[job.kind.doc].ActiveLink() && s.docs[job.kind.doc].storageRef.Some?)
      then SkipWith(s, id, job.version, "DOCUMENT_GONE")
      else Begin(s, id, job)
  }

  datatype TagResult = Verified | NotVerified(code: string)

  predicate RetryableCode(code: string) { code in {"UNREACHABLE", "API_ERROR", "VERIFY_FAILED"} }

  function TagOutcome(doc: Doc, tagId: int, result: TagResult): Doc {
    match result
    case Verified => doc.(tagging := Some(Applied), taggingError := None, verifiedFor := Some(tagId))
    case NotVerified(code) =>
      doc.(tagging := Some(if RetryableCode(code) then TaggingPending else TaggingFailed), taggingError := Some(code))
  }

  function EndTag(s: State, id: nat, result: TagResult): State {
    if id !in s.inflight || id !in s.jobs || !s.jobs[id].kind.TagDocument? || s.jobs[id].kind.doc !in s.docs then s
    else
      var a := s.inflight[id];
      var job := s.jobs[id];
      s.(inflight := s.inflight - {id})
       .PutDoc(job.kind.doc, TagOutcome(s.docs[job.kind.doc], a.tagId, result))
       .PutJob(id,
         match result
         case Verified => job.(status := Completed, error := None, handlings := job.handlings + 1)
         case NotVerified(code) =>
           if RetryableCode(code) then RetryOrFail(job, a.retryCount, job.maxRetries, code)
           else job.(status := Failed, error := Some(code), handlings := job.handlings + 1))
  }

  /** The policy's share of the periodic tick; `due` is the schedule's verdict. */
  function Tick(s: State, due: bool): State {
    if !due || s.policyArchived || s.config.None? || s.HasActive(SyncPolicy) then s
    else s.AddJob(SyncPolicy, s.config.value.version)
  }

  // --- The machine ----------------------------------------------------------

  datatype Event =
    | EvSetTag(tagId: int, name: string, clientName: Option<string>, connection: string)
    | EvRemoveTag
    | EvRequestSync
    | EvRetryTagging(only: Option<nat>, retryRows: seq<nat>)
    | EvLink(meta: RemoteDoc, found: Option<nat>)
    | EvRemoveDocument(doc: nat)
    | EvTick(due: bool)
    | EvBeginSync(job: nat, baseUrl: string)
    | EvEndSync(job: nat, answer: SyncAnswer, now: int, rows: seq<nat>)
    | EvBeginTag(job: nat, baseUrl: string)
    | EvEndTag(job: nat, result: TagResult)
    | EvArchivePolicy

  function Step(s: State, e: Event): State {
    match e
    case EvSetTag(tagId, name, clientName, connection) => SetTag(s, tagId, name, clientName, connection)
    case EvRemoveTag => RemoveTag(s)
    case EvRequestSync => RequestSync(s)
    case EvRetryTagging(only, rows) => RetryTagging(s, only, rows)
    case EvLink(meta, found) => LinkDocument(s, meta, found)
    case EvRemoveDocument(doc) => RemoveDocument(s, doc)
    case EvTick(due) => Tick(s, due)
    case EvBeginSync(job, baseUrl) => BeginSync(s, job, baseUrl)
    case EvEndSync(job, answer, now, rows) => EndSync(s, job, answer, now, rows)
    case EvBeginTag(job, baseUrl) => BeginTag(s, job, baseUrl)
    case EvEndTag(job, result) => EndTag(s, job, result)
    case EvArchivePolicy => s.(policyArchived := true)
  }

  predicate DistinctIds(remote: seq<RemoteDoc>) {
    forall i, j :: 0 <= i < j < |remote| ==> remote[i].paperlessId != remote[j].paperlessId
  }

  /** Only PENDING rows are delivered, a row is handled by one worker at a time,
      a query returns each row once and the remote list has distinct ids. */
  predicate Enabled(s: State, e: Event) {
    match e
    case EvBeginSync(job, _) => job in s.jobs && s.jobs[job].kind.SyncPolicy? && s.jobs[job].status.Pending? && job !in s.inflight
    case EvBeginTag(job, _) => job in s.jobs && s.jobs[job].kind.TagDocument? && s.jobs[job].status.Pending? && job !in s.inflight
    case EvEndSync(job, answer, _, rows) =>
      job in s.inflight && job in s.jobs && s.jobs[job].kind.SyncPolicy? && Enumerates(rows, s.docs.Keys) &&
      (answer.Listed? ==> DistinctIds(answer.remote))
    case EvEndTag(job, _) => job in s.inflight && job in s.jobs && s.jobs[job].kind.TagDocument?
    case EvRetryTagging(_, rows) => Enumerates(rows, s.docs.Keys)
    case EvLink(meta, found) =>
      if found.Some? then found.value in s.docs && s.docs[found.value].ActiveLinkTo(meta.paperlessId) else !s.Linked(meta.paperlessId)
    case _ => true
  }

  /** The state after the events of `es`. */
  function After(s: State, es: seq<Event>): State {
    if es == [] then s else Step(After(s, es[..|es| - 1]), es[|es| - 1])
  }

  ghost predicate Feasible(s: State, es: seq<Event>) {
    forall k :: 0 <= k < |es| ==> Enabled(After(s, es[..k]), es[k])
  }
}
