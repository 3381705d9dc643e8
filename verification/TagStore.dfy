// The shared rows of one policy and the operations that change them in place.
module TagStore {
  import opened Wrappers
  import opened Text
  import opened TagModel

  method ReadRemote(remote: seq<RemoteDoc>) returns (order: seq<int>, byId: map<int, RemoteDoc>)
    ensures order == RemoteOrder(remote) && byId == RemoteById(remote)
  {
    order, byId := [], map[];
    for n := 0 to |remote|
      invariant order == RemoteOrder(remote[..n]) && byId == RemoteById(remote[..n])
    {
      assert remote[..n + 1][..n] == remote[..n];
      var ref := remote[n].paperlessId;
      if ref !in order { order := order + [ref]; }
      byId := byId[ref := remote[n]];
    }
    assert remote[..|remote|] == remote;
  }

  class Store {
    var config: Option<Config>
    var docs: map<nat, Doc>
    var jobs: map<nat, Job>
    var nextDoc: nat
    var nextJob: nat
    var policyArchived: bool
    ghost var inflight: map<nat, Attempt>

    ghost function Abs(): State
      reads this
    {
      State(config, docs, jobs, nextDoc, nextJob, policyArchived, inflight)
    }

    method CreateJob(kind: JobKind, version: nat) returns (id: nat)
      modifies this`jobs, this`nextJob
      ensures id == old(nextJob) && Abs() == old(Abs()).AddJob(kind, version)
    {
      id := nextJob;
      jobs := jobs[id := NewJob(kind, version)];
      nextJob := nextJob + 1;
    }

    method SupersedeActive(code: string)
      modifies this`jobs
      ensures jobs == SupersedeJobs(old(jobs), code)
    {
      jobs := map id | id in jobs :: if jobs[id].Active() then jobs[id].(status := Skipped, error := Some(code)) else jobs[id];
    }

    // --- Tag configuration ------------------------------------------------------

    method ChangeTag(tagId: int, name: string, clientName: Option<string>, connection: string) returns (accepted: bool)
      modifies this
      ensures accepted == !old(policyArchived)
      ensures Abs() == SetTag(old(Abs()), tagId, name, clientName, connection)
    {
      accepted := !policyArchived;
      if accepted {
        var existing := config;
        var resolved := ResolveTagName(name, clientName);
        var version := if existing.Some? then existing.value.version + 1 else 1;
        var lastSynced := if existing.Some? then existing.value.lastSynced else None;
        config := Some(Config(tagId, resolved, connection, version, SyncPending, None, lastSynced));
        SupersedeActive("SUPERSEDED");
        if existing.Some? && existing.value.tagId != tagId {
          docs := map id | id in docs ::
            if docs[id].linkOriginManual && docs[id].tagging == Some(Applied)
            then docs[id].(tagging := Some(TaggingPending), taggingError := None) else docs[id];
        }
        var _ := CreateJob(SyncPolicy, version);
      }
    }

    /** Three updates: tag-only rows leave, two-origin rows lose the tag, and
        no manual link stays tagged. */
    method ReleaseLinks()
      modifies this`docs
      ensures docs == map id | id in old(docs) :: WithoutTag(old(docs)[id])
    {
      docs := map id | id in docs ::
        if docs[id].linkOriginTag && !docs[id].linkOriginManual then docs[id].(linkOriginTag := false, archived := true) else docs[id];
      docs := map id | id in docs ::
        if docs[id].linkOriginTag && docs[id].linkOriginManual then docs[id].(linkOriginTag := false) else docs[id];
      docs := map id | id in docs ::
        if docs[id].linkOriginManual && !docs[id].archived then docs[id].(tagging := None, taggingError := None) else docs[id];
    }

    method DropTag() returns (removed: bool)
      modifies this
      ensures removed == (!old(policyArchived) && old(config).Some?)
      ensures Abs() == RemoveTag(old(Abs()))
    {
      hide SupersedeJobs, WithoutTag;
      removed := !policyArchived && config.Some?;
      if removed {
        config := None;
        SupersedeActive("TAG_REMOVED");
        ReleaseLinks();
      }
    }

    /** A second request while a sync is active starts nothing. */
    method Refresh() returns (started: bool)
      modifies this`jobs, this`nextJob
      ensures Abs() == RequestSync(old(Abs()))
      ensures started <==> !old(policyArchived) && old(config).Some? && !old(Abs()).HasActive(SyncPolicy)
    {
      started := !policyArchived && config.Some? && !(exists id :: id in jobs && jobs[id].kind == SyncPolicy && jobs[id].Active());
      if started {
        var _ := CreateJob(SyncPolicy, config.value.version);
      }
    }

    method Queue(id: nat, version: nat)
      requires id in docs
      modifies this`docs, this`jobs, this`nextJob
      ensures Abs() == QueueTagging(old(Abs()), id, version)
    {
      var active := exists j :: j in jobs && jobs[j].kind == TagDocument(id) && jobs[j].Active();
      docs := docs[id := docs[id].(tagging := Some(TaggingPending), taggingError := None)];
      if !active {
        var _ := CreateJob(TagDocument(id), version);
      }
    }

    method Retry(only: Option<nat>, rows: seq<nat>)
      modifies this`docs, this`jobs, this`nextJob
      ensures Abs() == RetryTagging(old(Abs()), only, rows)
    {
      if policyArchived || config.None? { return; }
      for n := 0 to |rows|
        invariant config == old(config) && config.Some? && Abs() == RetryRows(old(Abs()), rows[..n], only, config.value.version)
      {
        assert rows[..n + 1][..n] == rows[..n];
        var id := rows[n];
        if id in docs && Retryable(docs[id]) && (only == None || only == Some(id)) {
          Queue(id, config.value.version);
        }
      }
      assert rows[..|rows|] == rows;
    }

    // --- Document service -----------------------------------------------------------

    method ApplyManual(id: nat, meta: RemoteDoc)
      requires id in docs
      modifies this`docs, this`jobs, this`nextJob
      ensures Abs() == ApplyManualLinkOrigin(old(Abs()), id, meta)
    {
      hide QueueTagging;
      var doc := docs[id];
      if Blank(doc.mimeType) && !Blank(meta.mimeType) { doc := doc.(mimeType := meta.mimeType); }
      if doc.documentDate.None? && meta.created.Some? { doc := doc.(documentDate := meta.created); }
      docs := docs[id := doc.(linkOriginManual := true)];
      if config.Some? {
        Queue(id, config.value.version);
      }
    }

    method Link(meta: RemoteDoc, found: Option<nat>) returns (id: nat)
      requires if found.Some? then found.value in docs && docs[found.value].ActiveLinkTo(meta.paperlessId) else !Abs().Linked(meta.paperlessId)
      modifies this
      ensures Abs() == LinkDocument(old(Abs()), meta, found)
      ensures id in docs && docs[id].ActiveLinkTo(meta.paperlessId) && docs[id].linkOriginManual
    {
      hide QueueTagging;
      if found.Some? {
        id := found.value;
      } else {
        id := nextDoc;
        docs := docs[id := NewManualDoc(meta)];
        nextDoc := nextDoc + 1;
      }
      ApplyManual(id, meta);
    }

    method Unlink(id: nat) returns (found: bool)
      modifies this`docs
      ensures found == (id in old(docs) && !old(docs)[id].archived) && Abs() == RemoveDocument(old(Abs()), id)
    {
      found := id in docs && !docs[id].archived;
      if found {
        if docs[id].linkOriginTag && docs[id].linkOriginManual {
          docs := docs[id := docs[id].(linkOriginManual := false)];
        } else {
          docs := docs[id := docs[id].(archived := true)];
        }
      }
    }

    // --- Worker -----------------------------------------------------------------------

    predicate ConfigStale(version: nat)
      reads this`config
    {
      config.None? || config.value.version != version
    }

    method ReadLinks(rows: seq<nat>) returns (locals: seq<nat>)
      ensures locals == LinksOf(docs, rows)
    {
      locals := [];
      for n := 0 to |rows|
        invariant locals == LinksOf(docs, rows[..n])
      {
        assert rows[..n + 1][..n] == rows[..n];
        if rows[n] in docs && docs[rows[n]].ActiveLink() { locals := locals + [rows[n]]; }
      }
      assert rows[..|rows|] == rows;
    }

    method IndexLinks(locals: seq<nat>, ghost snap: map<nat, Doc>) returns (byRef: map<int, nat>)
      requires forall k :: 0 <= k < |locals| ==> locals[k] in snap && locals[k] in docs && snap[locals[k]] == docs[locals[k]]
      ensures byRef == ByRef(snap, locals)
    {
      byRef := map[];
      for n := 0 to |locals|
        invariant forall k :: 0 <= k < |locals[..n]| ==> locals[..n][k] in snap
        invariant byRef == ByRef(snap, locals[..n])
      {
        assert locals[..n + 1][..n] == locals[..n];
        var ref := docs[locals[n]].storageRef;
        if ref.Some? { byRef := byRef[ref.value := locals[n]]; }
      }
      assert locals[..|locals|] == locals;
    }

    method UpdateExisting(ghost run: Run, existing: Doc, id: nat, remote: RemoteDoc, tally: Tally) returns (r: Tally)
      requires run.Valid() && remote.paperlessId in run.byRef && remote.paperlessId in run.remote && run.remote[remote.paperlessId] == remote
      requires run.byRef[remote.paperlessId] == id && run.snap[id] == existing && run.tally == tally
      modifies this`docs
      ensures (Abs(), r) == WriteRemote(old(Abs()), run, remote.paperlessId)
    {
      var update := DeriveTagLinkMetadata(remote, Some(existing));
      if (update != NO_UPDATE || !existing.linkOriginTag) && id in docs {
        var written := ApplyMetadata(docs[id], update);
        docs := docs[id := if existing.linkOriginTag then written else written.(linkOriginTag := true)];
        r := tally.(updated := tally.updated + 1);
      } else {
        r := tally.(untouched := tally.untouched + 1);
      }
    }

    method CreateLink(ghost run: Run, ref: int, remote: RemoteDoc, tally: Tally) returns (r: Tally)
      requires run.Valid() && ref !in run.byRef && ref in run.remote && run.remote[ref] == remote && run.tally == tally
      modifies this`docs, this`nextDoc
      ensures (Abs(), r) == WriteRemote(old(Abs()), run, ref)
    {
      if exists id :: id in docs && docs[id].ActiveLinkTo(ref) {
        docs := map id | id in docs :: if docs[id].ActiveLinkTo(ref) then docs[id].(linkOriginTag := true) else docs[id];
        r := tally.(untouched := tally.untouched + 1);
      } else {
        docs := docs[nextDoc := NewTagDoc(ref, remote)];
        nextDoc := nextDoc + 1;
        r := tally.(added := tally.added + 1);
      }
    }

    /** The walk over the remote documents; `run` is the run it is part of. */
    method WalkRemote(ghost start: Run, version: nat, order: seq<int>, remoteById: map<int, RemoteDoc>, snapshot: map<nat, Doc>, localByRef: map<int, nat>)
      returns (aborted: bool, tally: Tally)
      requires start.Valid() && start.version == version && start.i == 0 && start.j == 0 && start.phase.Walking? && start.tally == Tally(0, 0, 0, 0)
      requires order == start.order && remoteById == start.remote && localByRef == start.byRef
      requires forall r :: r in remoteById ==> remoteById[r].paperlessId == r
      requires forall id :: id in start.snap ==> id in snapshot && snapshot[id] == start.snap[id]
      modifies this`docs, this`nextDoc
      ensures aborted ==> RunAll(old(Abs()), start).0 == Abs() && RunAll(old(Abs()), start).1.phase.Aborted? && RunAll(old(Abs()), start).1.tally == tally
      ensures !aborted ==> RunAll(Abs(), start.(i := |order|, tally := tally)) == RunAll(old(Abs()), start)
    {
      hide WriteRemote, DeriveTagLinkMetadata, ApplyMetadata, NewTagDoc;
      tally := Tally(0, 0, 0, 0);
      for n := 0 to |order|
        invariant Abs() == old(Abs()).(docs := docs, nextDoc := nextDoc)
        invariant RunAll(Abs(), start.(i := n, tally := tally)) == RunAll(old(Abs()), start)
      {
        ghost var before := Abs();
        ghost var run := start.(i := n, tally := tally);
        var ref := order[n];
        if ConfigStale(version) {
          return true, tally;
        }
        if ref in localByRef {
          tally := UpdateExisting(run, snapshot[localByRef[ref]], localByRef[ref], remoteById[ref], tally);
        } else {
          tally := CreateLink(run, ref, remoteById[ref], tally);
        }
        assert RemoteStep(before, run) == (Abs(), start.(i := n + 1, tally := tally));
      }
      aborted := false;
    }

    /** One local link: keeps it, drops its lost tag origin, or stops the run. */
    method VisitLocal(ghost run: Run, version: nat, id: nat, link: Doc, remoteById: map<int, RemoteDoc>, tally: Tally)
      returns (aborted: bool, r: Tally)
      requires run.Valid() && run.phase.Walking? && run.j < |run.locals| && run.version == version && run.remote == remoteById
      requires run.locals[run.j] == id && run.snap[id] == link && run.tally == tally
      modifies this`docs
      ensures LocalStep(old(Abs()), run) == (Abs(), if aborted then run.(phase := Phase.Aborted) else run.(j := run.j + 1, tally := r))
      ensures aborted ==> r == tally
    {
      aborted, r := false, tally;
      if link.linkOriginTag && !(link.storageRef.Some? && link.storageRef.value in remoteById) {
        if ConfigStale(version) {
          return true, tally;
        }
        if id in docs {
          docs := docs[id := docs[id].(linkOriginTag := false, archived := if link.linkOriginManual then docs[id].archived else true)];
        }
        r := tally.(removed := tally.removed + 1);
      }
    }

    /** The removal of lost tag origins, judged by the snapshot. */
    method WalkLocals(ghost start: Run, version: nat, locals: seq<nat>, remoteById: map<int, RemoteDoc>, snapshot: map<nat, Doc>, walked: Tally)
      returns (aborted: bool, tally: Tally)
      requires start.Valid() && start.version == version && start.i == |start.order| && start.j == 0 && start.phase.Walking? && start.tally == walked
      requires locals == start.locals && remoteById == start.remote
      requires forall id :: id in start.snap ==> id in snapshot && snapshot[id] == start.snap[id]
      modifies this`docs
      ensures var end := RunAll(old(Abs()), start); Abs() == end.0 && tally == end.1.tally && aborted == end.1.phase.Aborted?
    {
      hide LocalStep, RemoteStep;
      aborted, tally := false, walked;
      for m := 0 to |locals|
        invariant !aborted && Abs() == old(Abs()).(docs := docs)
        invariant RunAll(Abs(), start.(j := m, tally := tally)) == RunAll(old(Abs()), start)
      {
        aborted, tally := VisitLocal(start.(j := m, tally := tally), version, locals[m], snapshot[locals[m]], remoteById, tally);
        if aborted { return; }
      }
    }

    method ReconcileAssignments(version: nat, remote: seq<RemoteDoc>, rows: seq<nat>) returns (aborted: bool, tally: Tally)
      modifies this`docs, this`nextDoc
      ensures var end := RunAll(old(Abs()), StartRun(old(docs), version, remote, rows));
        Abs() == end.0 && tally == end.1.tally && aborted == end.1.phase.Aborted?
    {
      hide RemoteOrder, RemoteById, LinksOf, ByRef, RunAll, RunStep;
      ghost var start := StartRun(docs, version, remote, rows);
      var order, remoteById := ReadRemote(remote);
      var locals := ReadLinks(rows);
      var localByRef := IndexLinks(locals, start.snap);
      var snapshot := docs;
      aborted, tally := WalkRemote(start, version, order, remoteById, snapshot, localByRef);
      if !aborted {
        aborted, tally := WalkLocals(start.(i := |order|, tally := tally), version, locals, remoteById, snapshot, tally);
      }
    }

    method ScheduleManualLinkBackfill(version: nat, rows: seq<nat>)
      modifies this`docs, this`jobs, this`nextJob
      ensures Abs() == Backfill(old(Abs()), version, rows)
    {
      if ConfigStale(version) { return; }
      for n := 0 to |rows|
        invariant Abs() == BackfillRows(old(Abs()), rows[..n], version)
      {
        assert rows[..n + 1][..n] == rows[..n];
        var id := rows[n];
        if id in docs && NeedsBackfill(docs[id]) && !(exists j :: j in jobs && jobs[j].kind == TagDocument(id) && jobs[j].Active()) {
          Queue(id, version);
        }
      }
      assert rows[..|rows|] == rows;
    }

    method FailConfig(version: nat, code: string)
      modifies this`config
      ensures Abs() == ConfigFailed(old(Abs()), version, code)
    {
      if !ConfigStale(version) {
        config := Some(config.value.(syncStatus := SyncError, syncError := Some(code)));
      }
    }

    /** A whole handling of a SYNC_POLICY row: its start, then its end. */
    method HandleSyncPolicy(id: nat, baseUrl: string, answer: SyncAnswer, now: int, rows: seq<nat>)
      requires id in jobs && jobs[id].status.Pending? && id !in inflight
      modifies this
      ensures var begun := BeginSync(old(Abs()), id, baseUrl);
        Abs() == if id in begun.inflight then EndSync(begun, id, answer, now, rows) else begun
    {
      var job := jobs[id];
      var skip := if ConfigStale(job.version) then Some("STALE_CONFIG")
                  else if policyArchived then Some("POLICY_ARCHIVED")
                  else if ConnectionDrift(config.value, baseUrl) then Some("CONNECTION_CHANGED") else None;
      if skip.Some? {
        if skip.value == "CONNECTION_CHANGED" { FailConfig(job.version, skip.value); }
        jobs := jobs[id := SkipJob(job, skip.value)];
        return;
      }
      var tagId := config.value.tagId;
      jobs := jobs[id := job.(status := Running, progress := NO_PROGRESS)];
      inflight := inflight[id := Attempt(job.version, tagId, job.retryCount)];
      ghost var begun := Abs();
      FinishHandling(id, job.version, job.retryCount, answer, now, rows);
      assert Abs() == EndSync(begun, id, answer, now, rows);
    }

    method FinishHandling(id: nat, version: nat, retryCount: nat, answer: SyncAnswer, now: int, rows: seq<nat>)
      requires id in jobs && id in inflight && inflight[id].version == version && inflight[id].retryCount == retryCount
      modifies this
      ensures Abs() == EndSync(old(Abs()), id, answer, now, rows)
    {
      hide RunAll, StartRun, FinishSync;
      var job := jobs[id];
      inflight := inflight - {id};
      match answer
      case LookupFailed(code) =>
        if code == "UNREACHABLE" {
          jobs := jobs[id := RetryOrFail(job, retryCount, job.maxRetries, code)];
        } else {
          FailConfig(version, code);
          jobs := jobs[id := RetryOrFail(job, job.maxRetries, job.maxRetries, code)];
        }
      case ListFailed =>
        FailConfig(version, "SYNC_FAILED");
        jobs := jobs[id := RetryOrFail(job, retryCount, job.maxRetries, "SYNC_FAILED")];
      case Listed(name, remote) =>
        ghost var start := StartRun(docs, version, remote, rows);
        ghost var done := RunAll(Abs(), start);
        var aborted, tally := ReconcileAssignments(version, remote, rows);
        CompleteSync(done.1, id, version, name, aborted, tally, |remote|, now, rows);
    }

    method CompleteSync(ghost run: Run, id: nat, version: nat, name: string, aborted: bool, tally: Tally, total: nat, now: int, rows: seq<nat>)
      requires id in jobs && run.tally == tally && run.phase.Aborted? == aborted
      modifies this
      ensures Abs() == FinishSync(old(Abs()), id, version, name, total, now, run, rows)
    {
      var row := jobs[id].(progress := ToProgress(tally, total), handlings := jobs[id].handlings + 1);
      if aborted {
        jobs := jobs[id := row.(status := Skipped, error := Some("STALE_CONFIG"))];
        return;
      }
      if !ConfigStale(version) {
        config := Some(config.value.(lastSynced := Some(now), syncStatus := SyncActive, syncError := None, tagName := Some(name)));
      }
      jobs := jobs[id := row.(status := Completed, error := None)];
      ScheduleManualLinkBackfill(version, rows);
    }

    /** A whole handling of a TAG_DOCUMENT row. */
    method HandleTagDocument(id: nat, baseUrl: string, result: TagResult)
      requires id in jobs && jobs[id].kind.TagDocument? && jobs[id].status.Pending? && id !in inflight
      modifies this
      ensures var begun := BeginTag(old(Abs()), id, baseUrl);
        Abs() == if id in begun.inflight then EndTag(begun, id, result) else begun
    {
      var job := jobs[id];
      var d := job.kind.doc;
      var skip := if ConfigStale(job.version) then Some("STALE_CONFIG")
                  else if policyArchived then Some("POLICY_ARCHIVED")
                  else if ConnectionDrift(config.value, baseUrl) then Some("CONNECTION_CHANGED")
                  else if !(d in docs && docs[d].ActiveLink() && docs[d].storageRef.Some?) then Some("DOCUMENT_GONE") else None;
      if skip.Some? {
        if skip.value == "CONNECTION_CHANGED" { FailConfig(job.version, skip.value); }
        jobs := jobs[id := SkipJob(job, skip.value)];
        return;
      }
      var row := job.(status := Running);
      jobs := jobs[id := row];
      docs := docs[d := TagOutcome(docs[d], config.value.tagId, result)];
      match result
      case Verified =>
        jobs := jobs[id := row.(status := Completed, error := None, handlings := job.handlings + 1)];
      case NotVerified(code) =>
        if RetryableCode(code) {
          jobs := jobs[id := RetryOrFail(row, job.retryCount, job.maxRetries, code)];
        } else {
          jobs := jobs[id := row.(status := Failed, error := Some(code), handlings := job.handlings + 1)];
        }
    }

    method ScheduleIfDue(due: bool) returns (started: bool)
      modifies this`jobs, this`nextJob
      ensures Abs() == Tick(old(Abs()), due)
    {
      started := due && !policyArchived && config.Some? && !(exists id :: id in jobs && jobs[id].kind == SyncPolicy && jobs[id].Active());
      if started {
        var _ := CreateJob(SyncPolicy, config.value.version);
      }
    }
  }
}
