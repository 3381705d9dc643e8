// The durable job rows: retry budget, exact progress, one current row per task.
module TagOutbox {
  import opened Wrappers
  import opened TagModel
  import opened TagInvariants

  predicate JobOk(id: nat, job: Job, nextJob: nat) {
    && id < nextJob && job.version > 0
    && job.retryCount <= job.maxRetries
    && job.handlings <= job.retryCount + 1
    && (job.Active() ==> job.handlings == job.retryCount)
    && (job.kind.SyncPolicy? && job.status.Completed? ==> job.progress.total == Some(job.progress.processed))
  }

  /** A running handler still holds the row's version and retry counter. */
  predicate AttemptOk(job: Job, attempt: Attempt) {
    job.handlings == job.retryCount && attempt.retryCount == job.retryCount && attempt.version == job.version
  }

  ghost predicate RowsOk(jobs: map<nat, Job>, inflight: map<nat, Attempt>, nextJob: nat) {
    && (forall id :: id in jobs ==> JobOk(id, jobs[id], nextJob))
    && (forall id :: id in inflight ==> id in jobs && AttemptOk(jobs[id], inflight[id]))
  }

  predicate CurrentActive(job: Job, task: JobKind, version: nat) {
    job.Active() && job.kind == task && job.version == version
  }

  /** A row that a failing handler would put back. */
  predicate HasRetries(job: Job) { job.retryCount < job.maxRetries }

  /** At most one active row does the task for the version; what is active or may
      still be put back is not ahead of the version, and a row of the version that
      may be put back still counts as active. */
  ghost predicate UniqueRows(task: JobKind, version: nat, jobs: map<nat, Job>, inflight: map<nat, Attempt>) {
    && (forall id :: id in jobs && jobs[id].kind == task && (jobs[id].Active() || (id in inflight && HasRetries(jobs[id]))) ==> jobs[id].version <= version)
    && OneActiveRow(jobs, task, version)
    && (forall id :: id in inflight && id in jobs && jobs[id].kind == task && jobs[id].version == version && HasRetries(jobs[id]) ==> jobs[id].status.Running?)
  }

  ghost predicate JobsInv(s: State) {
    RowsOk(s.jobs, s.inflight, s.nextJob) && (s.config.Some? ==> s.config.value.version > 0)
  }

  ghost predicate CurrentRowsUnique(s: State, task: JobKind) {
    s.config.Some? ==> UniqueRows(task, s.config.value.version, s.jobs, s.inflight)
  }

  ghost predicate OneActiveRow(jobs: map<nat, Job>, task: JobKind, version: nat) {
    forall a, b :: a in jobs && b in jobs && CurrentActive(jobs[a], task, version) && CurrentActive(jobs[b], task, version) ==> a == b
  }

  /** The promise itself: at most one active row for the task carries the version
      configured now. */
  ghost predicate OneCurrentRow(s: State, task: JobKind) {
    s.config.Some? ==> OneActiveRow(s.jobs, task, s.config.value.version)
  }

  /** A row for the task is being handled and may be put back. */
  ghost predicate MayReturn(s: State, task: JobKind) {
    exists id :: id in s.inflight && id in s.jobs && s.jobs[id].kind == task && HasRetries(s.jobs[id])
  }

  /** A tag is configured after an earlier configuration was deleted, while a
      handler of an earlier row for the task may still put it back. */
  ghost predicate Recreates(s: State, e: Event, task: JobKind) {
    e.EvSetTag? && s.config.None? && !s.policyArchived && MayReturn(s, task)
  }

  // --- Rows added -------------------------------------------------------------

  lemma AddJobKeeps(s: State, kind: JobKind, version: nat, task: JobKind)
    requires JobsInv(s) && version > 0
    ensures JobsInv(s.AddJob(kind, version))
    ensures CurrentRowsUnique(s, task) && !s.HasActive(kind) && s.ConfigIs(version) ==> CurrentRowsUnique(s.AddJob(kind, version), task)
  {
    var t := s.AddJob(kind, version);
    assert s.nextJob !in s.jobs && s.nextJob !in s.inflight;
    assert forall id :: id in s.jobs ==> t.jobs[id] == s.jobs[id] && JobOk(id, s.jobs[id], s.nextJob);
  }

  lemma QueueTaggingKeepsJobs(s: State, id: nat, version: nat, task: JobKind)
    requires id in s.docs && JobsInv(s) && s.ConfigIs(version)
    ensures JobsInv(QueueTagging(s, id, version))
    ensures CurrentRowsUnique(s, task) ==> CurrentRowsUnique(QueueTagging(s, id, version), task)
  {
    var marked := s.PutDoc(id, s.docs[id].(tagging := Some(TaggingPending), taggingError := None));
    AddJobKeeps(marked, TagDocument(id), version, task);
  }

  lemma {:induction false} RetryRowsKeepsJobs(s: State, ids: seq<nat>, only: Option<nat>, version: nat, task: JobKind)
    requires JobsInv(s) && s.ConfigIs(version)
    ensures var t := RetryRows(s, ids, only, version);
      JobsInv(t) && t.config == s.config && (CurrentRowsUnique(s, task) ==> CurrentRowsUnique(t, task))
    decreases |ids|
  {
    if ids != [] {
      var n := |ids| - 1;
      RetryRowsKeepsJobs(s, ids[..n], only, version, task);
      var before := RetryRows(s, ids[..n], only, version);
      if ids[n] in before.docs {
        QueueTaggingKeepsJobs(before, ids[n], version, task);
      }
    }
  }

  lemma {:induction false} BackfillRowsKeepsJobs(s: State, ids: seq<nat>, version: nat, task: JobKind)
    requires JobsInv(s) && s.ConfigIs(version)
    ensures var t := BackfillRows(s, ids, version);
      JobsInv(t) && t.config == s.config && (CurrentRowsUnique(s, task) ==> CurrentRowsUnique(t, task))
    decreases |ids|
  {
    if ids != [] {
      var n := |ids| - 1;
      BackfillRowsKeepsJobs(s, ids[..n], version, task);
      var before := BackfillRows(s, ids[..n], version);
      if ids[n] in before.docs {
        QueueTaggingKeepsJobs(before, ids[n], version, task);
      }
    }
  }

  // --- Rows changed -------------------------------------------------------------

  predicate RowEnded(before: Job, row: Job) {
    && row.kind == before.kind && row.version == before.version && row.maxRetries == before.maxRetries
    && row.handlings == before.handlings + 1
    && if row.Active()
       then row.status.Pending? && before.retryCount < before.maxRetries && row.retryCount == before.retryCount + 1
       else row.retryCount == before.retryCount
            && (row.kind.SyncPolicy? && row.status.Completed? ==> row.progress.total == Some(row.progress.processed))
  }

  /** Ending a handling; the put-back of a superseded row is included. */
  lemma EndRow(jobs: map<nat, Job>, inflight: map<nat, Attempt>, nextJob: nat, id: nat, row: Job)
    requires RowsOk(jobs, inflight, nextJob) && id in jobs && id in inflight && RowEnded(jobs[id], row)
    ensures RowsOk(jobs[id := row], inflight - {id}, nextJob)
    ensures forall task, v :: UniqueRows(task, v, jobs, inflight) ==> UniqueRows(task, v, jobs[id := row], inflight - {id})
  {
    forall task, v | UniqueRows(task, v, jobs, inflight) ensures UniqueRows(task, v, jobs[id := row], inflight - {id}) {
      var after := jobs[id := row];
      forall a, b | a in after && b in after && CurrentActive(after[a], task, v) && CurrentActive(after[b], task, v)
        ensures a == b
      {
        assert CurrentActive(jobs[a], task, v) && CurrentActive(jobs[b], task, v);
      }
    }
  }

  lemma StartRow(jobs: map<nat, Job>, inflight: map<nat, Attempt>, nextJob: nat, id: nat, row: Job, attempt: Attempt)
    requires RowsOk(jobs, inflight, nextJob) && id in jobs && id !in inflight && jobs[id].status.Pending?
    requires row == jobs[id].(status := Running, progress := row.progress) && AttemptOk(row, attempt)
    ensures RowsOk(jobs[id := row], inflight[id := attempt], nextJob)
    ensures forall task, v :: UniqueRows(task, v, jobs, inflight) ==> UniqueRows(task, v, jobs[id := row], inflight[id := attempt])
  {
    forall task, v | UniqueRows(task, v, jobs, inflight) ensures UniqueRows(task, v, jobs[id := row], inflight[id := attempt]) {
      var after := jobs[id := row];
      forall a, b | a in after && b in after && CurrentActive(after[a], task, v) && CurrentActive(after[b], task, v)
        ensures a == b
      {
        assert CurrentActive(jobs[a], task, v) && CurrentActive(jobs[b], task, v);
      }
    }
  }

  lemma SkipRow(jobs: map<nat, Job>, inflight: map<nat, Attempt>, nextJob: nat, id: nat, code: string)
    requires RowsOk(jobs, inflight, nextJob) && id in jobs && id !in inflight && jobs[id].status.Pending?
    ensures RowsOk(jobs[id := SkipJob(jobs[id], code)], inflight, nextJob)
    ensures forall task, v :: UniqueRows(task, v, jobs, inflight) ==> UniqueRows(task, v, jobs[id := SkipJob(jobs[id], code)], inflight)
  {
  }

  lemma DeliveredKeeps(s: State, id: nat, baseUrl: string, task: JobKind)
    requires JobsInv(s) && id in s.jobs && s.jobs[id].status.Pending? && id !in s.inflight
    ensures JobsInv(BeginSync(s, id, baseUrl)) && JobsInv(BeginTag(s, id, baseUrl))
    ensures CurrentRowsUnique(s, task) ==> CurrentRowsUnique(BeginSync(s, id, baseUrl), task) && CurrentRowsUnique(BeginTag(s, id, baseUrl), task)
  {
    hide UniqueRows;
    assert JobOk(id, s.jobs[id], s.nextJob);
    var code := SkipCode(s, s.jobs[id].version, baseUrl);
    if code.Some? {
      SkipRow(s.jobs, s.inflight, s.nextJob, id, code.value);
    } else {
      SkipRow(s.jobs, s.inflight, s.nextJob, id, "DOCUMENT_GONE");
      var attempt := Attempt(s.jobs[id].version, s.config.value.tagId, s.jobs[id].retryCount);
      StartRow(s.jobs, s.inflight, s.nextJob, id, s.jobs[id].(status := Running), attempt);
      StartRow(s.jobs, s.inflight, s.nextJob, id, s.jobs[id].(status := Running, progress := NO_PROGRESS), attempt);
    }
  }

  lemma SupersededKeeps(jobs: map<nat, Job>, inflight: map<nat, Attempt>, nextJob: nat, code: string)
    requires RowsOk(jobs, inflight, nextJob)
    ensures RowsOk(SupersedeJobs(jobs, code), inflight, nextJob)
  {
  }

  /** With every active row superseded, a newer version has no row yet. */
  lemma NothingOfNewerVersion(jobs: map<nat, Job>, inflight: map<nat, Attempt>, task: JobKind, version: nat, code: string)
    requires forall id :: id in inflight && id in jobs && jobs[id].kind == task && HasRetries(jobs[id]) ==> jobs[id].version < version
    ensures UniqueRows(task, version, SupersedeJobs(jobs, code), inflight)
  {
  }

  lemma SetTagKeepsJobs(s: State, tagId: int, name: string, clientName: Option<string>, connection: string, task: JobKind)
    requires JobsInv(s)
    ensures var t := SetTag(s, tagId, name, clientName, connection);
      JobsInv(t) && (CurrentRowsUnique(s, task) && !(s.config.None? && !s.policyArchived && MayReturn(s, task)) ==> CurrentRowsUnique(t, task))
  {
    hide RowsOk, UniqueRows, SupersedeJobs;
    if !s.policyArchived {
      var t := SetTag(s, tagId, name, clientName, connection);
      var version := t.config.value.version;
      var u := t.(jobs := SupersedeJobs(s.jobs, "SUPERSEDED"), nextJob := s.nextJob);
      SupersededKeeps(s.jobs, s.inflight, s.nextJob, "SUPERSEDED");
      assert t == u.AddJob(SyncPolicy, version);
      if CurrentRowsUnique(s, task) && !(s.config.None? && MayReturn(s, task)) {
        ReturningRowsAreOlder(s, task, version);
        NothingOfNewerVersion(s.jobs, s.inflight, task, version, "SUPERSEDED");
      }
      NothingActive(s.jobs, "SUPERSEDED");
      AddJobKeeps(u, SyncPolicy, version, task);
    }
  }

  lemma NothingActive(jobs: map<nat, Job>, code: string)
    ensures forall id :: id in SupersedeJobs(jobs, code) ==> !SupersedeJobs(jobs, code)[id].Active()
  {
  }

  lemma ReturningRowsAreOlder(s: State, task: JobKind, version: nat)
    requires CurrentRowsUnique(s, task) && (s.config.None? ==> !MayReturn(s, task)) && (s.config.Some? ==> s.config.value.version < version)
    ensures forall id :: id in s.inflight && id in s.jobs && s.jobs[id].kind == task && HasRetries(s.jobs[id]) ==> s.jobs[id].version < version
  {
  }

  lemma RunCountsEverything(s: State, id: nat, remote: seq<RemoteDoc>, rows: seq<nat>)
    requires id in s.inflight && LinksInv(s) && DistinctIds(remote)
    ensures var run := SyncRun(s, id, remote, rows).1;
      run.phase.Finished? ==> run.tally.added + run.tally.updated + run.tally.untouched == |remote|
  {
    SyncRunKeepsLinks(s, id, remote, rows);
    OrderOfDistinct(remote);
    RunAllKeepsList(s.(inflight := s.inflight - {id}), StartRun(s.docs, s.inflight[id].version, remote, rows));
  }

  lemma FinishSyncKeepsJobs(s: State, id: nat, version: nat, name: string, total: nat, now: int, run: Run, rows: seq<nat>, origin: State, task: JobKind)
    requires JobsInv(origin) && id in origin.inflight && id in origin.jobs
    requires s == origin.(docs := s.docs, nextDoc := s.nextDoc, inflight := origin.inflight - {id})
    requires run.phase.Finished? || run.phase.Aborted?
    requires run.phase.Finished? ==> run.tally.added + run.tally.updated + run.tally.untouched == total
    ensures var t := FinishSync(s, id, version, name, total, now, run, rows);
      JobsInv(t) && (CurrentRowsUnique(origin, task) ==> CurrentRowsUnique(t, task))
  {
    hide BackfillRows, RowsOk, UniqueRows;
    var job := s.jobs[id].(progress := ToProgress(run.tally, total), handlings := s.jobs[id].handlings + 1);
    EndRow(origin.jobs, origin.inflight, origin.nextJob, id, job.(status := Skipped, error := Some("STALE_CONFIG")));
    if run.phase.Finished? {
      var row := job.(status := Completed, error := None);
      EndRow(origin.jobs, origin.inflight, origin.nextJob, id, row);
      if s.ConfigIs(version) {
        var active := s.(config := Some(s.config.value.(lastSynced := Some(now), syncStatus := SyncActive, syncError := None, tagName := Some(name))));
        BackfillRowsKeepsJobs(active.PutJob(id, row), rows, version, task);
      }
    }
  }

  lemma EndSyncKeepsJobs(s: State, id: nat, answer: SyncAnswer, now: int, rows: seq<nat>, task: JobKind)
    requires JobsInv(s) && LinksInv(s) && Enabled(s, EvEndSync(id, answer, now, rows))
    ensures var t := EndSync(s, id, answer, now, rows); JobsInv(t) && (CurrentRowsUnique(s, task) ==> CurrentRowsUnique(t, task))
  {
    hide FinishSync, LinksInv;
    if answer.Listed? {
      RunCountsEverything(s, id, answer.remote, rows);
      var done := SyncRun(s, id, answer.remote, rows);
      FinishSyncKeepsJobs(done.0, id, s.inflight[id].version, answer.name, |answer.remote|, now, done.1, rows, s, task);
    } else {
      EndRow(s.jobs, s.inflight, s.nextJob, id, EndSync(s, id, answer, now, rows).jobs[id]);
    }
  }

  lemma EndTagKeepsJobs(s: State, id: nat, result: TagResult, task: JobKind)
    requires JobsInv(s) && Enabled(s, EvEndTag(id, result))
    ensures var t := EndTag(s, id, result); JobsInv(t) && (CurrentRowsUnique(s, task) ==> CurrentRowsUnique(t, task))
  {
    if s.jobs[id].kind.doc in s.docs {
      EndRow(s.jobs, s.inflight, s.nextJob, id, EndTag(s, id, result).jobs[id]);
    }
  }

  lemma ManualOriginKeepsJobs(s: State, id: nat, meta: RemoteDoc, task: JobKind)
    requires JobsInv(s) && id in s.docs
    ensures var t := ApplyManualLinkOrigin(s, id, meta); JobsInv(t) && (CurrentRowsUnique(s, task) ==> CurrentRowsUnique(t, task))
  {
    if s.config.Some? {
      var t := s.PutDoc(id, ApplyManualLinkOrigin(s.(config := None), id, meta).docs[id]);
      QueueTaggingKeepsJobs(t, id, s.config.value.version, task);
    }
  }

  /** Every enabled operation keeps the retry budget and the exact progress, and
      keeps the current rows unique unless it re-creates a configuration. */
  lemma StepKeepsJobs(s: State, e: Event, task: JobKind)
    requires LinksInv(s) && JobsInv(s) && Enabled(s, e)
    ensures JobsInv(Step(s, e))
    ensures CurrentRowsUnique(s, task) && !Recreates(s, e, task) ==> CurrentRowsUnique(Step(s, e), task)
  {
    hide SetTag, RetryRows, ApplyManualLinkOrigin, EndSync, EndTag, BeginSync, BeginTag, LinksInv, RowsOk, UniqueRows;
    match e
    case EvSetTag(tagId, name, clientName, connection) => SetTagKeepsJobs(s, tagId, name, clientName, connection, task);
    case EvRemoveTag => SupersededKeeps(s.jobs, s.inflight, s.nextJob, "TAG_REMOVED");
    case EvRequestSync => if s.config.Some? { AddJobKeeps(s, SyncPolicy, s.config.value.version, task); }
    case EvRetryTagging(only, rows) => if s.config.Some? { RetryRowsKeepsJobs(s, rows, only, s.config.value.version, task); }
    case EvLink(meta, found) =>
      if found.Some? { ManualOriginKeepsJobs(s, found.value, meta, task); }
      else { ManualOriginKeepsJobs(s.PutDoc(s.nextDoc, NewManualDoc(meta)).(nextDoc := s.nextDoc + 1), s.nextDoc, meta, task); }
    case EvRemoveDocument(doc) =>
    case EvTick(due) => if s.config.Some? { AddJobKeeps(s, SyncPolicy, s.config.value.version, task); }
    case EvBeginSync(job, baseUrl) => DeliveredKeeps(s, job, baseUrl, task);
    case EvEndSync(job, answer, now, rows) => EndSyncKeepsJobs(s, job, answer, now, rows, task);
    case EvBeginTag(job, baseUrl) => DeliveredKeeps(s, job, baseUrl, task);
    case EvEndTag(job, result) => EndTagKeepsJobs(s, job, result, task);
    case EvArchivePolicy =>
  }
}
