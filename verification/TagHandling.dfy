// Whole handlings of job rows, and what a change of the tag finally brings about.
module TagHandling {
  import opened Wrappers
  import opened TagModel
  import opened TagInvariants
  import opened TagOutbox
  import opened TagReconcile
  import opened TagRuns
  import opened TagInterleaving
  import opened TagDelivery

  // --- When a row may be worked on -------------------------------------------------------

  /** The row carries the version configured now. */
  predicate Current(s: State, id: nat)
    requires id in s.jobs
  {
    s.config.Some? && s.config.value.version == s.jobs[id].version
  }

  /** Both servers are known, and they are not the same. */
  predicate OtherServer(s: State, baseUrl: string) {
    s.config.Some? && s.config.value.connection != "" && baseUrl != "" && s.config.value.connection != baseUrl
  }

  predicate Deliverable(s: State, id: nat, baseUrl: string)
    requires id in s.jobs
  {
    Current(s, id) && !s.policyArchived && !OtherServer(s, baseUrl)
  }

  /** How a handling leaves its row. */
  predicate RowLeft(before: Job, after: Job, status: JobStatus, error: Option<string>, retryCount: nat) {
    && after.status == status && after.error == error && after.retryCount == retryCount && after.handlings == before.handlings + 1
    && after.kind == before.kind && after.version == before.version && after.maxRetries == before.maxRetries
  }

  /** A failure that may pass: once more within the budget, else for good. */
  predicate TriedAgain(before: Job, after: Job, code: string) {
    if before.retryCount < before.maxRetries then RowLeft(before, after, Pending, Some(code), before.retryCount + 1)
    else RowLeft(before, after, Failed, Some(code), before.retryCount)
  }

  /** Nothing but the row, what its handling holds, and the configuration's status. */
  ghost predicate OnlyRow(s: State, t: State, id: nat) {
    && id in s.jobs && id in t.jobs && t == s.(jobs := s.jobs[id := t.jobs[id]], inflight := t.inflight, config := t.config)
    && t.inflight == s.inflight - {id}
  }

  /** The configuration with an error noted on it, otherwise unchanged. */
  predicate ErrorNoted(s: State, t: State, code: string) {
    s.config.Some? && t.config.Some? && t.config.value == s.config.value.(syncStatus := SyncError, syncError := Some(code))
  }

  /** Rows that are skipped: a superseded one first, then one of an archived policy,
      then one for another server - and only that is noted on the configuration. */
  ghost predicate Skips(s: State, t: State, id: nat, baseUrl: string)
    requires id in s.jobs
  {
    && OnlyRow(s, t, id)
    && (!Current(s, id) ==> RowLeft(s.jobs[id], t.jobs[id], Skipped, Some("STALE_CONFIG"), s.jobs[id].retryCount) && t.config == s.config)
    && (Current(s, id) && s.policyArchived ==>
          RowLeft(s.jobs[id], t.jobs[id], Skipped, Some("POLICY_ARCHIVED"), s.jobs[id].retryCount) && t.config == s.config)
    && (Current(s, id) && !s.policyArchived && OtherServer(s, baseUrl) ==>
          RowLeft(s.jobs[id], t.jobs[id], Skipped, Some("CONNECTION_CHANGED"), s.jobs[id].retryCount) && ErrorNoted(s, t, "CONNECTION_CHANGED"))
  }

  /** A row that is completed or skipped is left alone, should it be delivered again. */
  lemma SettledRowsAreLeft(s: State, id: nat, baseUrl: string)
    requires id in s.jobs && (s.jobs[id].status == JobStatus.Completed || s.jobs[id].status == JobStatus.Skipped)
    ensures BeginSync(s, id, baseUrl) == s && BeginTag(s, id, baseUrl) == s
  {
  }

  // --- Syncs ---------------------------------------------------------------------------

  function HandleSync(s: State, id: nat, baseUrl: string, answer: SyncAnswer, now: int, rows: seq<nat>): State {
    var begun := BeginSync(s, id, baseUrl);
    if id in begun.inflight then EndSync(begun, id, answer, now, rows) else begun
  }

  lemma UndeliverableSync(s: State, id: nat, baseUrl: string)
    requires Enabled(s, EvBeginSync(id, baseUrl))
    ensures id in BeginSync(s, id, baseUrl).inflight <==> Deliverable(s, id, baseUrl)
    ensures !Deliverable(s, id, baseUrl) ==> Skips(s, BeginSync(s, id, baseUrl), id, baseUrl)
  {
    assert s.inflight - {id} == s.inflight;
  }

  /** What each failing answer leaves behind. */
  ghost predicate SyncFails(s: State, t: State, id: nat, answer: SyncAnswer)
    requires id in s.jobs
  {
    && OnlyRow(s, t, id)
    && (answer == LookupFailed("UNREACHABLE") ==> TriedAgain(s.jobs[id], t.jobs[id], "UNREACHABLE") && t.config == s.config)
    && (answer.LookupFailed? && answer.code != "UNREACHABLE" ==>
          RowLeft(s.jobs[id], t.jobs[id], Failed, Some(answer.code), s.jobs[id].retryCount) && ErrorNoted(s, t, answer.code))
    && (answer.ListFailed? ==> TriedAgain(s.jobs[id], t.jobs[id], "SYNC_FAILED") && ErrorNoted(s, t, "SYNC_FAILED"))
  }

  lemma FailingSync(s: State, id: nat, baseUrl: string, answer: SyncAnswer, now: int, rows: seq<nat>)
    requires Enabled(s, EvBeginSync(id, baseUrl)) && Deliverable(s, id, baseUrl) && !answer.Listed?
    ensures SyncFails(s, HandleSync(s, id, baseUrl, answer, now, rows), id, answer)
  {
    UndeliverableSync(s, id, baseUrl);
    var begun := BeginSync(s, id, baseUrl);
    assert begun.inflight - {id} == s.inflight - {id};
  }

  /** A sync handled in one go succeeds exactly when its row is current, the policy
      is active, no other server is configured and the list arrives; then the
      configuration is ACTIVE and every manual link served. Otherwise no document
      changes, and row and configuration are left as each reason demands. */
  lemma SyncHandledInOneGo(s: State, id: nat, baseUrl: string, answer: SyncAnswer, now: int, rows: seq<nat>)
    requires LinksInv(s) && JobsInv(s) && Enabled(s, EvBeginSync(id, baseUrl))
    requires Enumerates(rows, s.docs.Keys) && (answer.Listed? ==> DistinctIds(answer.remote))
    ensures var t := HandleSync(s, id, baseUrl, answer, now, rows);
      && (!Deliverable(s, id, baseUrl) ==> Skips(s, t, id, baseUrl) && t.docs == s.docs)
      && (Deliverable(s, id, baseUrl) && !answer.Listed? ==> SyncFails(s, t, id, answer) && t.docs == s.docs)
      && (Deliverable(s, id, baseUrl) && answer.Listed? ==>
            && id in t.jobs && id !in t.inflight && t.jobs[id].status.Completed? && AllServed(t)
            && t.config == Some(s.config.value.(lastSynced := Some(now), syncStatus := SyncActive, syncError := None, tagName := Some(answer.name))))
  {
    hide LinksInv, JobsInv, BeginSync, EndSync, AllServed, SyncFails, Skips;
    var begun := BeginSync(s, id, baseUrl);
    UndeliverableSync(s, id, baseUrl);
    if !Deliverable(s, id, baseUrl) {
      SkipsNoDocument(s, begun, id, baseUrl);
    } else if !answer.Listed? {
      FailingSync(s, id, baseUrl, answer, now, rows);
      FailsNoDocument(s, HandleSync(s, id, baseUrl, answer, now, rows), id, answer);
    } else {
      WorkStartsIff(s, id, baseUrl);
      BegunKeeps(s, id, baseUrl);
      assert Enabled(begun, EvEndSync(id, answer, now, rows));
      SyncServesManualLinks(begun, id, answer.name, answer.remote, now, rows);
      NoLongerInFlight(begun, id, answer, now, rows);
    }
  }

  lemma SkipsNoDocument(s: State, t: State, id: nat, baseUrl: string)
    requires id in s.jobs && Skips(s, t, id, baseUrl)
    ensures t.docs == s.docs
  {
  }

  lemma FailsNoDocument(s: State, t: State, id: nat, answer: SyncAnswer)
    requires id in s.jobs && SyncFails(s, t, id, answer)
    ensures t.docs == s.docs
  {
  }

  lemma BegunKeeps(s: State, id: nat, baseUrl: string)
    requires LinksInv(s) && JobsInv(s) && Enabled(s, EvBeginSync(id, baseUrl))
    ensures var t := BeginSync(s, id, baseUrl);
      && LinksInv(t) && JobsInv(t) && id in t.jobs && t.jobs[id].kind.SyncPolicy?
      && t.jobs[id].version == s.jobs[id].version && (HasRetries(t.jobs[id]) <==> HasRetries(s.jobs[id]))
      && !t.jobs[id].status.Completed?
  {
    hide LinksInv, RowsOk;
    StepKeepsLinks(s, EvBeginSync(id, baseUrl));
    DeliveredKeeps(s, id, baseUrl, SyncPolicy);
  }

  lemma NoLongerInFlight(s: State, id: nat, answer: SyncAnswer, now: int, rows: seq<nat>)
    requires Enabled(s, EvEndSync(id, answer, now, rows))
    ensures var t := EndSync(s, id, answer, now, rows); id !in t.inflight && (!answer.Listed? ==> id in t.jobs && !t.jobs[id].status.Completed?)
  {
    hide RunAll, StartRun, FinishSync;
    if answer.Listed? {
      var idle, start := s.(inflight := s.inflight - {id}), StartRun(s.docs, s.inflight[id].version, answer.remote, rows);
      var done := RunAll(idle, start);
      FinishKeepsInFlight(done.0, id, s.inflight[id].version, answer.name, |answer.remote|, now, done.1, rows);
    }
  }

  lemma FinishKeepsInFlight(s: State, id: nat, version: nat, name: string, total: nat, now: int, run: Run, rows: seq<nat>)
    requires id in s.jobs
    ensures FinishSync(s, id, version, name, total, now, run, rows).inflight == s.inflight
  {
    hide BackfillRows;
    forall t: State ensures BackfillRows(t, rows, version).inflight == t.inflight { BackfillKeepsInFlight(t, rows, version); }
  }

  lemma {:induction false} BackfillKeepsInFlight(s: State, ids: seq<nat>, version: nat)
    ensures BackfillRows(s, ids, version).inflight == s.inflight
    decreases |ids|
  {
    hide QueueTagging;
    if ids != [] { BackfillKeepsInFlight(s, ids[..|ids| - 1], version); }
  }

  /** A sync whose run was stopped ends as skipped, with what it had counted. */
  lemma StoppedSync(s: State, id: nat, version: nat, name: string, total: nat, now: int, run: Run, rows: seq<nat>)
    requires id in s.jobs && run.phase.Aborted?
    ensures var t := FinishSync(s, id, version, name, total, now, run, rows);
      && t == s.PutJob(id, t.jobs[id]) && RowLeft(s.jobs[id], t.jobs[id], Skipped, Some("STALE_CONFIG"), s.jobs[id].retryCount)
      && t.jobs[id].progress.processed == run.tally.added + run.tally.updated + run.tally.untouched && t.jobs[id].progress.total == Some(total)
      && t.jobs[id].progress.added == run.tally.added && t.jobs[id].progress.removed == run.tally.removed
      && t.jobs[id].progress.untouched == run.tally.updated + run.tally.untouched
  {
  }

  // --- Taggings ------------------------------------------------------------------------

  function HandleTagging(s: State, id: nat, baseUrl: string, result: TagResult): State {
    var begun := BeginTag(s, id, baseUrl);
    if id in begun.inflight then EndTag(begun, id, result) else begun
  }

  lemma UndeliverableTagging(s: State, id: nat, baseUrl: string)
    requires Enabled(s, EvBeginTag(id, baseUrl))
    ensures !Deliverable(s, id, baseUrl) ==> id !in BeginTag(s, id, baseUrl).inflight && Skips(s, BeginTag(s, id, baseUrl), id, baseUrl)
  {
    assert s.inflight - {id} == s.inflight;
  }

  /** The document of the row is still an active Paperless link. */
  predicate StillLinked(s: State, d: nat) { d in s.docs && s.docs[d].ActiveLink() && s.docs[d].storageRef.Some? }

  lemma TaggingStarts(s: State, id: nat, baseUrl: string)
    requires Enabled(s, EvBeginTag(id, baseUrl)) && Deliverable(s, id, baseUrl)
    ensures var t := BeginTag(s, id, baseUrl); var d := s.jobs[id].kind.doc;
      && (id in t.inflight <==> StillLinked(s, d))
      && (StillLinked(s, d) ==>
            t == s.(jobs := s.jobs[id := s.jobs[id].(status := Running)], inflight := s.inflight[id := t.inflight[id]]) &&
            t.inflight[id] == Attempt(s.jobs[id].version, s.config.value.tagId, s.jobs[id].retryCount))
      && (!StillLinked(s, d) ==>
            OnlyRow(s, t, id) && t.config == s.config && RowLeft(s.jobs[id], t.jobs[id], Skipped, Some("DOCUMENT_GONE"), s.jobs[id].retryCount))
  {
    assert id !in s.inflight ==> s.inflight - {id} == s.inflight;
  }

  /** How a tagging leaves its document. */
  predicate Tagged(before: Doc, after: Doc, status: TaggingStatus, error: Option<string>, tag: Option<int>) {
    after == before.(tagging := Some(status), taggingError := error, verifiedFor := tag)
  }

  /** What each result leaves behind: the three errors that may pass are tried again
      and leave the document pending, every other one fails both at once. */
  ghost predicate TaggingEnds(s: State, t: State, id: nat, d: nat, result: TagResult)
    requires id in s.jobs && d in s.docs && s.config.Some?
  {
    && d in t.docs && id in t.jobs
    && t == s.(jobs := s.jobs[id := t.jobs[id]], docs := s.docs[d := t.docs[d]], inflight := s.inflight - {id})
    && (result.Verified? ==>
          Tagged(s.docs[d], t.docs[d], Applied, None, Some(s.config.value.tagId)) && RowLeft(s.jobs[id], t.jobs[id], Completed, None, s.jobs[id].retryCount))
    && (result.NotVerified? && (result.code == "UNREACHABLE" || result.code == "API_ERROR" || result.code == "VERIFY_FAILED") ==>
          Tagged(s.docs[d], t.docs[d], TaggingPending, Some(result.code), s.docs[d].verifiedFor) && TriedAgain(s.jobs[id], t.jobs[id], result.code))
    && (result.NotVerified? && result.code != "UNREACHABLE" && result.code != "API_ERROR" && result.code != "VERIFY_FAILED" ==>
          Tagged(s.docs[d], t.docs[d], TaggingFailed, Some(result.code), s.docs[d].verifiedFor) &&
          RowLeft(s.jobs[id], t.jobs[id], Failed, Some(result.code), s.jobs[id].retryCount))
  }

  lemma StartedTagging(s: State, u: State, id: nat, result: TagResult)
    requires Enabled(s, EvBeginTag(id, "")) && s.config.Some? && s.jobs[id].kind.doc in s.docs
    requires u == s.(jobs := s.jobs[id := s.jobs[id].(status := Running)],
                     inflight := s.inflight[id := Attempt(s.jobs[id].version, s.config.value.tagId, s.jobs[id].retryCount)])
    ensures TaggingEnds(s, EndTag(u, id, result), id, s.jobs[id].kind.doc, result)
  {
    assert u.inflight - {id} == s.inflight - {id};
  }

  /** A tagging handled in one go is tried exactly when its row is current, the
      policy is active, no other server is configured and the document is still
      linked; then document and row are left as the result demands. Otherwise the
      row is skipped and no document changes. */
  lemma TaggingHandledInOneGo(s: State, id: nat, baseUrl: string, result: TagResult)
    requires Enabled(s, EvBeginTag(id, baseUrl))
    ensures var d := s.jobs[id].kind.doc; var t := HandleTagging(s, id, baseUrl, result);
      && (!Deliverable(s, id, baseUrl) ==> Skips(s, t, id, baseUrl) && t.docs == s.docs)
      && (Deliverable(s, id, baseUrl) && !StillLinked(s, d) ==>
            OnlyRow(s, t, id) && t.docs == s.docs && t.config == s.config && RowLeft(s.jobs[id], t.jobs[id], Skipped, Some("DOCUMENT_GONE"), s.jobs[id].retryCount))
      && (Deliverable(s, id, baseUrl) && StillLinked(s, d) ==> TaggingEnds(s, t, id, d, result))
  {
    hide BeginTag, EndTag, Skips, TaggingEnds;
    UndeliverableTagging(s, id, baseUrl);
    if !Deliverable(s, id, baseUrl) {
      SkipsNoDocument(s, BeginTag(s, id, baseUrl), id, baseUrl);
    } else {
      TaggingStarts(s, id, baseUrl);
      if StillLinked(s, s.jobs[id].kind.doc) { StartedTagging(s, BeginTag(s, id, baseUrl), id, result); }
    }
  }

  /** A failed assignment of a manual link stays open to the user's retry. */
  lemma FailedTaggingCanBeRetried(s: State, id: nat, baseUrl: string, code: string)
    requires Enabled(s, EvBeginTag(id, baseUrl)) && Deliverable(s, id, baseUrl)
    requires StillLinked(s, s.jobs[id].kind.doc) && s.docs[s.jobs[id].kind.doc].linkOriginManual
    ensures var t := HandleTagging(s, id, baseUrl, NotVerified(code)); var d := s.jobs[id].kind.doc;
      d in t.docs && d in RetryTargets(t, None)
  {
    hide BeginTag, EndTag, HandleTagging, Skips;
    TaggingHandledInOneGo(s, id, baseUrl, NotVerified(code));
  }

  // --- A change of the tag ----------------------------------------------------------------

  predicate NoneApplied(docs: map<nat, Doc>) {
    forall id :: id in docs && docs[id].ActiveLink() && docs[id].linkOriginManual ==> docs[id].tagging != Some(Applied)
  }

  lemma ChangedTagIsNowhereApplied(s: State, tagId: int, name: string, clientName: Option<string>, connection: string)
    requires TaggingInv(s) && !s.policyArchived && (s.config.Some? ==> s.config.value.tagId != tagId)
    ensures NoneApplied(SetTag(s, tagId, name, clientName, connection).docs)
  {
    assert s.config.None? ==> forall id :: id in s.docs ==> TaggingFits(None, s.docs[id]);
  }

  /** No document is being tagged by an active row. */
  predicate NoActiveTagging(jobs: map<nat, Job>) {
    forall j :: j in jobs && jobs[j].Active() ==> jobs[j].kind.SyncPolicy?
  }

  lemma BackfillQueuesCurrent(s: State, version: nat, rows: seq<nat>)
    requires FreshIds(s) && s.ConfigIs(version) && Distinct(rows) && NoActiveTagging(s.jobs)
    requires forall id :: id in s.docs && s.docs[id].linkOriginManual ==> id in rows
    ensures var t := Backfill(s, version, rows);
      forall id :: id in s.docs && NeedsBackfill(s.docs[id]) ==> id in t.docs && HasCurrent(t, id, version)
  {
    hide BackfillRows;
    BackfillRowsServe(s, rows, version);
    var t := Backfill(s, version, rows);
    forall id | id in s.docs && NeedsBackfill(s.docs[id]) ensures id in t.docs && HasCurrent(t, id, version) {
      assert id in Backfilled(s, rows) && t.HasActive(TagDocument(id));
      var j :| j in t.jobs && t.jobs[j].kind == TagDocument(id) && t.jobs[j].Active();
      assert j !in s.jobs;
      assert NewAssignment(s, t.jobs[j], version, Backfilled(s, rows));
      assert ActiveFor(t.jobs[j], id, version);
    }
  }

  /** The links a user made all have an active assignment of the configured tag. */
  ghost predicate AllQueued(t: State, version: nat) {
    forall id :: id in t.docs && t.docs[id].ActiveLink() && t.docs[id].linkOriginManual && t.docs[id].storageRef.Some? ==> HasCurrent(t, id, version)
  }

  lemma FinishQueuesAll(s: State, id: nat, version: nat, name: string, total: nat, now: int, run: Run, rows: seq<nat>)
    requires id in s.jobs && FreshIds(s) && s.ConfigIs(version) && run.phase.Finished? && Distinct(rows)
    requires forall x :: x in s.docs && s.docs[x].linkOriginManual ==> x in rows
    requires NoneApplied(s.docs) && NoActiveTagging(s.jobs)
    ensures AllQueued(FinishSync(s, id, version, name, total, now, run, rows), version)
  {
    hide BackfillRows;
    var job := s.jobs[id].(progress := ToProgress(run.tally, total), handlings := s.jobs[id].handlings + 1);
    var active := s.(config := Some(s.config.value.(lastSynced := Some(now), syncStatus := SyncActive, syncError := None, tagName := Some(name))));
    var completed := active.PutJob(id, job.(status := Completed, error := None));
    BackfillQueuesCurrent(completed, version, rows);
    BackfillRowsServe(completed, rows, version);
  }

  lemma EndSyncQueuesAll(s: State, id: nat, name: string, remote: seq<RemoteDoc>, now: int, rows: seq<nat>)
    requires LinksInv(s) && JobsInv(s) && Enabled(s, EvEndSync(id, Listed(name, remote), now, rows)) && s.ConfigIs(s.inflight[id].version)
    requires NoneApplied(s.docs) && NoActiveTagging(s.jobs)
    ensures AllQueued(EndSync(s, id, Listed(name, remote), now, rows), s.inflight[id].version)
  {
    hide OriginsOk, OneRowPerRef, RowsOk, AllQueued, FinishSync, RunAll, StartRun, NoneApplied, NoActiveTagging;
    IdsAreFresh(s);
    var version := s.inflight[id].version;
    var idle := s.(inflight := s.inflight - {id});
    ManualRowsAreOld(idle, version, remote, rows);
    ReconcileAppliesNothing(idle, version, remote, rows);
    var done := Reconcile(idle, version, remote, rows);
    FinishQueuesAll(done.0, id, version, name, |remote|, now, done.1, rows);
  }

  lemma ReconcileAppliesNothing(s: State, version: nat, remote: seq<RemoteDoc>, rows: seq<nat>)
    requires LinksInv(s) && NoneApplied(s.docs)
    ensures NoneApplied(Reconcile(s, version, remote, rows).0.docs)
  {
    hide RunAll, StartRun, LinksInv;
    StartRunSnapshotHolds(s, version, remote, rows);
    StartCounts(s.docs, version, remote, rows);
    RunAllKeepsTagging(s, StartRun(s.docs, version, remote, rows));
  }

  lemma StartCounts(docs: map<nat, Doc>, version: nat, remote: seq<RemoteDoc>, rows: seq<nat>)
    ensures CountsKept(StartRun(docs, version, remote, rows))
  {
  }

  /** Setting another tag, or the first one, and handling the sync it queues gives
      every manual link an active assignment of the new configuration: nothing is
      left confirmed for the old tag, and nobody is forgotten. */
  lemma ChangedTagReachesAllManualLinks(s: State, tagId: int, name: string, clientName: Option<string>, connection: string,
                                        baseUrl: string, title: string, remote: seq<RemoteDoc>, now: int, rows: seq<nat>)
    requires LinksInv(s) && JobsInv(s) && TaggingInv(s) && !s.policyArchived && (s.config.Some? ==> s.config.value.tagId != tagId)
    requires connection == "" || baseUrl == "" || connection == baseUrl
    requires Enumerates(rows, s.docs.Keys) && DistinctIds(remote)
    ensures var t := HandleSync(SetTag(s, tagId, name, clientName, connection), s.nextJob, baseUrl, Listed(title, remote), now, rows);
      && t.config.Some? && t.config.value.tagId == tagId && t.config.value.syncStatus.SyncActive? && t.config.value.tagName == Some(title)
      && AllQueued(t, t.config.value.version)
  {
    hide SetTag, BeginSync, EndSync, AllQueued, LinksInv, JobsInv, NoneApplied, TaggingInv;
    var u := SetTag(s, tagId, name, clientName, connection);
    var id := s.nextJob;
    IdsAreFresh(s);
    TagIsSet(s, tagId, name, clientName, connection);
    ChangedTagIsNowhereApplied(s, tagId, name, clientName, connection);
    SetTagKeepsLinks(s, tagId, name, clientName, connection);
    SetTagKeepsJobs(s, tagId, name, clientName, connection, SyncPolicy);
    NewSyncRow(s, tagId, name, clientName, connection);
    WorkStartsIff(u, id, baseUrl);
    BegunKeeps(u, id, baseUrl);
    var begun := BeginSync(u, id, baseUrl);
    BegunTagsNothing(u, id, baseUrl);
    SyncServesManualLinks(begun, id, title, remote, now, rows);
    EndSyncQueuesAll(begun, id, title, remote, now, rows);
  }

  lemma NewSyncRow(s: State, tagId: int, name: string, clientName: Option<string>, connection: string)
    requires JobsInv(s) && !s.policyArchived
    ensures var u := SetTag(s, tagId, name, clientName, connection);
      && Enabled(u, EvBeginSync(s.nextJob, "")) && u.docs.Keys == s.docs.Keys && !u.policyArchived
      && u.config.Some? && u.jobs[s.nextJob] == NewJob(SyncPolicy, u.config.value.version) && NoActiveTagging(u.jobs)
  {
    assert s.nextJob !in s.inflight;
  }

  lemma BegunTagsNothing(s: State, id: nat, baseUrl: string)
    requires Enabled(s, EvBeginSync(id, baseUrl)) && NoActiveTagging(s.jobs)
    ensures NoActiveTagging(BeginSync(s, id, baseUrl).jobs)
  {
  }
}
