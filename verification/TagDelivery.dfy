// Which documents the outbox serves: nobody who needs a tag is forgotten, and
// nothing else is queued.
module TagDelivery {
  import opened Wrappers
  import opened TagModel
  import opened TagInvariants
  import opened TagOutbox
  import opened TagReconcile
  import opened TagSync
  import opened TagRuns
  import opened TagRaces

  function Marked(doc: Doc): Doc { doc.(tagging := Some(TaggingPending), taggingError := None) }

  predicate FreshIds(s: State) { forall j :: j in s.jobs ==> j < s.nextJob }

  /** A row of `t` that `s` did not have: a new assignment of a chosen document
      that had no active row. */
  predicate NewAssignment(s: State, job: Job, version: nat, chosen: set<nat>) {
    job.kind.TagDocument? && job == NewJob(job.kind, version) && job.kind.doc in chosen && !s.HasActive(job.kind)
  }

  /** Exactly the chosen documents are marked and have an active row; all old
      rows are untouched and every new row is needed. */
  ghost predicate Served(s: State, t: State, version: nat, chosen: set<nat>) {
    && FreshIds(t) && t.docs.Keys == s.docs.Keys
    && (forall id :: id in s.docs ==> t.docs[id] == if id in chosen then Marked(s.docs[id]) else s.docs[id])
    && (forall id :: id in chosen ==> t.HasActive(TagDocument(id)))
    && (forall j :: j in s.jobs ==> j in t.jobs && t.jobs[j] == s.jobs[j])
    && (forall j :: j in t.jobs && j !in s.jobs ==> NewAssignment(s, t.jobs[j], version, chosen))
    && t == s.(docs := t.docs, jobs := t.jobs, nextJob := t.nextJob)
  }

  lemma MarkServes(s: State, t: State, version: nat, chosen: set<nat>, id: nat)
    requires Served(s, t, version, chosen) && id in s.docs && id !in chosen && t.HasActive(TagDocument(id))
    ensures Served(s, t.PutDoc(id, Marked(t.docs[id])), version, chosen + {id})
  {
    var u := t.PutDoc(id, Marked(t.docs[id]));
    StillActive(t, u, chosen + {id});
    forall j | j in u.jobs && j !in s.jobs ensures NewAssignment(s, u.jobs[j], version, chosen + {id}) {
      assert NewAssignment(s, t.jobs[j], version, chosen);
    }
  }

  lemma AddServes(s: State, t: State, version: nat, chosen: set<nat>, id: nat)
    requires Served(s, t, version, chosen) && id in s.docs && id !in chosen && !t.HasActive(TagDocument(id))
    ensures Served(s, t.PutDoc(id, Marked(t.docs[id])).AddJob(TagDocument(id), version), version, chosen + {id})
  {
    var u := t.PutDoc(id, Marked(t.docs[id])).AddJob(TagDocument(id), version);
    ActiveOnlyIfBefore(s, t, version, chosen, id);
    StillActive(t, u, chosen);
    assert u.jobs[t.nextJob] == NewJob(TagDocument(id), version);
    forall j | j in u.jobs && j !in s.jobs ensures NewAssignment(s, u.jobs[j], version, chosen + {id}) {
      assert j != t.nextJob ==> NewAssignment(s, t.jobs[j], version, chosen);
    }
  }

  lemma QueueServes(s: State, t: State, version: nat, chosen: set<nat>, id: nat)
    requires Served(s, t, version, chosen) && id in s.docs && id !in chosen
    ensures Served(s, QueueTagging(t, id, version), version, chosen + {id})
  {
    if t.HasActive(TagDocument(id)) {
      MarkServes(s, t, version, chosen, id);
    } else {
      AddServes(s, t, version, chosen, id);
    }
  }

  lemma StillActive(t: State, u: State, ids: set<nat>)
    requires forall j :: j in t.jobs ==> j in u.jobs && u.jobs[j] == t.jobs[j]
    ensures forall id :: id in ids && t.HasActive(TagDocument(id)) ==> u.HasActive(TagDocument(id))
  {
    forall id | id in ids && t.HasActive(TagDocument(id)) ensures u.HasActive(TagDocument(id)) {
      var j :| j in t.jobs && t.jobs[j].kind == TagDocument(id) && t.jobs[j].Active();
      assert u.jobs[j] == t.jobs[j];
    }
  }

  /** With no row added for it, a document is as active as before. */
  lemma ActiveOnlyIfBefore(s: State, t: State, version: nat, chosen: set<nat>, id: nat)
    requires Served(s, t, version, chosen) && id !in chosen
    ensures t.HasActive(TagDocument(id)) <==> s.HasActive(TagDocument(id))
  {
    StillActive(s, t, {id});
    forall j | j in t.jobs && t.jobs[j].kind == TagDocument(id) ensures j in s.jobs {
      assert j in s.jobs || NewAssignment(s, t.jobs[j], version, chosen);
    }
  }

  function Retried(s: State, only: Option<nat>, ids: seq<nat>): set<nat> {
    set id | id in ids && id in s.docs && Retryable(s.docs[id]) && (only == None || only == Some(id))
  }

  lemma RetriedGrows(s: State, only: Option<nat>, ids: seq<nat>, n: nat)
    requires Distinct(ids) && |ids| == n + 1
    ensures var before := Retried(s, only, ids[..n]);
      ids[n] !in before && Retried(s, only, ids) ==
        if ids[n] in s.docs && Retryable(s.docs[ids[n]]) && (only == None || only == Some(ids[n])) then before + {ids[n]} else before
  {
    hide Retryable;
    assert ids == ids[..n] + [ids[n]];
  }

  lemma {:induction false} RetryRowsServe(s: State, ids: seq<nat>, only: Option<nat>, version: nat)
    requires FreshIds(s) && Distinct(ids)
    ensures Served(s, RetryRows(s, ids, only, version), version, Retried(s, only, ids))
    decreases |ids|
  {
    if ids == [] {
      assert Retried(s, only, ids) == {};
    } else {
      hide Served, QueueTagging, Retryable, Retried;
      var n := |ids| - 1;
      RetryRowsServe(s, ids[..n], only, version);
      var chosen := Retried(s, only, ids[..n]);
      RetriedGrows(s, only, ids, n);
      var before := RetryRows(s, ids[..n], only, version);
      UnchosenRow(s, before, version, chosen, ids[n]);
      if ids[n] in s.docs { QueueServes(s, before, version, chosen, ids[n]); }
    }
  }

  lemma UnchosenRow(s: State, t: State, version: nat, chosen: set<nat>, id: nat)
    requires Served(s, t, version, chosen) && id !in chosen
    ensures (id in t.docs <==> id in s.docs) && (id in s.docs ==> t.docs[id] == s.docs[id])
  {
  }

  lemma IdsAreFresh(s: State)
    requires JobsInv(s)
    ensures FreshIds(s)
  {
    assert forall j :: j in s.jobs ==> JobOk(j, s.jobs[j], s.nextJob);
  }

  ghost function RetryTargets(s: State, only: Option<nat>): set<nat> {
    set id | id in s.docs && Retryable(s.docs[id]) && (only == None || only == Some(id))
  }

  /** A retry serves exactly the manual links whose assignment is pending or
      failed (or the requested one of them). */
  lemma RetryServesExactly(s: State, only: Option<nat>, rows: seq<nat>)
    requires JobsInv(s) && s.config.Some? && !s.policyArchived && Enumerates(rows, s.docs.Keys)
    ensures Served(s, RetryTagging(s, only, rows), s.config.value.version, RetryTargets(s, only))
  {
    hide Served, RowsOk, Retryable, RetryRows;
    IdsAreFresh(s);
    RetryRowsServe(s, rows, only, s.config.value.version);
    assert Retried(s, only, rows) == RetryTargets(s, only);
  }

  // --- Starting a sync ------------------------------------------------------------------

  /** The only new row, if any, is a sync of the current configuration. */
  ghost predicate SyncStarted(s: State, t: State, version: nat) {
    && t.HasActive(SyncPolicy) && t == s.(jobs := t.jobs, nextJob := t.nextJob)
    && (if s.HasActive(SyncPolicy) then t == s else t.jobs == s.jobs[s.nextJob := NewJob(SyncPolicy, version)])
  }

  /** A request, or the tick of a due policy, leaves exactly one sync to wait
      for: the one that was active, or a new one. */
  lemma SyncIsStarted(s: State)
    requires s.config.Some? && !s.policyArchived
    ensures SyncStarted(s, RequestSync(s), s.config.value.version) && Tick(s, true) == RequestSync(s) && Tick(s, false) == s
  {
    if !s.HasActive(SyncPolicy) {
      assert RequestSync(s).jobs[s.nextJob] == NewJob(SyncPolicy, s.config.value.version);
    }
  }

  /** An active row is skipped for the reason given, any other is not touched. */
  predicate SupersededRow(before: Job, after: Job, reason: string) {
    after == if before.status == JobStatus.Pending || before.status == JobStatus.Running
             then before.(status := Skipped, error := Some(reason)) else before
  }

  ghost predicate AllSuperseded(before: map<nat, Job>, after: map<nat, Job>, reason: string) {
    forall j :: j in before ==> j in after && SupersededRow(before[j], after[j], reason)
  }

  /** Setting a tag: the name Paperless gives wins over the client's, the version
      grows, the last sync is remembered, an old error forgotten; the active rows are
      superseded, and the only active one is a sync of the new version. */
  lemma TagIsSet(s: State, tagId: int, name: string, clientName: Option<string>, connection: string)
    requires FreshIds(s) && !s.policyArchived
    ensures var t := SetTag(s, tagId, name, clientName, connection);
      && t.config == Some(Config(tagId,
                                 if name != "" then Some(name) else if clientName == Some("") then None else clientName,
                                 connection,
                                 if s.config.Some? then s.config.value.version + 1 else 1,
                                 SyncPending, None,
                                 if s.config.Some? then s.config.value.lastSynced else None))
      && AllSuperseded(s.jobs, t.jobs, "SUPERSEDED")
      && (forall j :: j in t.jobs && t.jobs[j].Active() ==> j !in s.jobs && t.jobs[j] == NewJob(SyncPolicy, t.config.value.version))
      && t.HasActive(SyncPolicy)
      && t.docs.Keys == s.docs.Keys
      && (s.config.None? || s.config.value.tagId == tagId ==> t.docs == s.docs)
      && (s.config.Some? && s.config.value.tagId != tagId ==>
            forall id :: id in s.docs ==>
              t.docs[id] == if s.docs[id].linkOriginManual && s.docs[id].tagging == Some(Applied) then Marked(s.docs[id]) else s.docs[id])
  {
    var t := SetTag(s, tagId, name, clientName, connection);
    assert t.jobs[s.nextJob] == NewJob(SyncPolicy, t.config.value.version);
  }

  /** A new row: pending, of the version, untried, with three retries to go. */
  lemma NewRowIs(s: State, kind: JobKind, version: nat)
    ensures var job := s.AddJob(kind, version).jobs[s.nextJob];
      && job.kind == kind && job.version == version && job.status.Pending? && job.retryCount == 0 && job.maxRetries == 3
      && job.error.None? && job.progress == Progress(0, None, 0, 0, 0)
  {
  }

  // --- The backfill after a sync ------------------------------------------------------

  function Backfilled(s: State, ids: seq<nat>): set<nat> {
    set id | id in ids && id in s.docs && NeedsBackfill(s.docs[id]) && !s.HasActive(TagDocument(id))
  }

  lemma BackfilledGrows(s: State, ids: seq<nat>, n: nat)
    requires Distinct(ids) && |ids| == n + 1
    ensures var before := Backfilled(s, ids[..n]);
      ids[n] !in before && Backfilled(s, ids) ==
        if ids[n] in s.docs && NeedsBackfill(s.docs[ids[n]]) && !s.HasActive(TagDocument(ids[n])) then before + {ids[n]} else before
  {
    hide NeedsBackfill;
    assert ids == ids[..n] + [ids[n]];
  }

  lemma {:induction false} BackfillRowsServe(s: State, ids: seq<nat>, version: nat)
    requires FreshIds(s) && Distinct(ids)
    ensures Served(s, BackfillRows(s, ids, version), version, Backfilled(s, ids))
    decreases |ids|
  {
    if ids == [] {
      assert Backfilled(s, ids) == {};
    } else {
      hide Served, QueueTagging, NeedsBackfill, Backfilled;
      var n := |ids| - 1;
      BackfillRowsServe(s, ids[..n], version);
      var chosen := Backfilled(s, ids[..n]);
      BackfilledGrows(s, ids, n);
      var before := BackfillRows(s, ids[..n], version);
      UnchosenRow(s, before, version, chosen, ids[n]);
      ActiveOnlyIfBefore(s, before, version, chosen, ids[n]);
      if ids[n] in s.docs { QueueServes(s, before, version, chosen, ids[n]); }
    }
  }

  /** The links a user made that the backfill has to reach. */
  ghost predicate AllServed(t: State) {
    forall id :: id in t.docs && t.docs[id].ActiveLink() && t.docs[id].linkOriginManual && t.docs[id].storageRef.Some? ==>
      t.docs[id].tagging == Some(Applied) || t.HasActive(TagDocument(id))
  }

  lemma BackfillReachesAll(s: State, version: nat, rows: seq<nat>)
    requires FreshIds(s) && s.ConfigIs(version) && Distinct(rows)
    requires forall id :: id in s.docs && s.docs[id].linkOriginManual ==> id in rows
    ensures AllServed(Backfill(s, version, rows))
  {
    BackfillRowsServe(s, rows, version);
    var t := Backfill(s, version, rows);
    forall id | id in t.docs && NeedsBackfill(t.docs[id]) ensures t.HasActive(TagDocument(id)) {
      if id !in Backfilled(s, rows) {
        ActiveOnlyIfBefore(s, t, version, Backfilled(s, rows), id);
      }
    }
  }

  // --- After a completed sync -----------------------------------------------------------

  lemma ManualRowsAreOld(s: State, version: nat, remote: seq<RemoteDoc>, rows: seq<nat>)
    requires LinksInv(s) && Ready(s, version, rows)
    ensures var done := Reconcile(s, version, remote, rows);
      done.1.phase.Finished? && forall id :: id in done.0.docs && done.0.docs[id].linkOriginManual ==> id in rows
  {
    hide Reconcile, Reconciled, Unlinked, Tagless;
    ReconcileExact(s, version, remote, rows);
    var t := Reconcile(s, version, remote, rows).0;
    forall id | id in t.docs && id !in s.docs ensures !t.docs[id].linkOriginManual {
      NewRowAt(s, t, RemoteById(remote), Unlinked(s, remote, rows), id);
    }
  }

  lemma FinishServes(s: State, id: nat, version: nat, name: string, total: nat, now: int, run: Run, rows: seq<nat>)
    requires id in s.jobs && FreshIds(s) && s.ConfigIs(version) && run.phase.Finished? && Distinct(rows)
    requires forall x :: x in s.docs && s.docs[x].linkOriginManual ==> x in rows
    ensures var t := FinishSync(s, id, version, name, total, now, run, rows);
      && t.config == Some(s.config.value.(lastSynced := Some(now), syncStatus := SyncActive, syncError := None, tagName := Some(name)))
      && AllServed(t)
      && id in t.jobs && t.jobs[id].status.Completed? && t.jobs[id].progress == ToProgress(run.tally, total)
  {
    hide BackfillRows, AllServed, Served;
    var job := s.jobs[id].(progress := ToProgress(run.tally, total), handlings := s.jobs[id].handlings + 1);
    var active := s.(config := Some(s.config.value.(lastSynced := Some(now), syncStatus := SyncActive, syncError := None, tagName := Some(name))));
    var completed := active.PutJob(id, job.(status := Completed, error := None));
    BackfillReachesAll(completed, version, rows);
    BackfillKeepsRest(completed, version, rows);
  }

  lemma BackfillKeepsRest(s: State, version: nat, rows: seq<nat>)
    requires FreshIds(s) && Distinct(rows)
    ensures var t := Backfill(s, version, rows);
      t.config == s.config && forall j :: j in s.jobs ==> j in t.jobs && t.jobs[j] == s.jobs[j]
  {
    BackfillRowsServe(s, rows, version);
  }

  /** Every remote document counted once, as added or as untouched. */
  predicate CountedExactly(p: Progress, listed: nat, unlinked: nat, lost: nat) {
    p.processed == listed && p.total == Some(listed) && p.added == unlinked && p.untouched == listed - unlinked && p.removed == lost
  }

  /** A sync of the current configuration completes with exact counts, makes the
      configuration ACTIVE and leaves no manual link behind: each is APPLIED or
      has an active assignment. */
  lemma SyncServesManualLinks(s: State, id: nat, name: string, remote: seq<RemoteDoc>, now: int, rows: seq<nat>)
    requires LinksInv(s) && JobsInv(s) && Enabled(s, EvEndSync(id, Listed(name, remote), now, rows))
    requires s.ConfigIs(s.inflight[id].version)
    ensures var t := EndSync(s, id, Listed(name, remote), now, rows);
      && t.config == Some(s.config.value.(lastSynced := Some(now), syncStatus := SyncActive, syncError := None, tagName := Some(name)))
      && AllServed(t)
      && id in t.jobs && t.jobs[id].status.Completed?
      && CountedExactly(t.jobs[id].progress, |remote|, |Unlinked(s, remote, rows)|, |Tagless(s.docs, RemoteById(remote))|)
  {
    hide OriginsOk, OneRowPerRef, RowsOk, AllServed, FinishSync, RunAll, StartRun, NewRows, Reconciled, Tagless, RemoteOrder;
    IdsAreFresh(s);
    var version := s.inflight[id].version;
    var idle := s.(inflight := s.inflight - {id});
    ManualRowsAreOld(idle, version, remote, rows);
    var done := Reconcile(idle, version, remote, rows);
    FinishServes(done.0, id, version, name, |remote|, now, done.1, rows);
    ReconcileExact(idle, version, remote, rows);
    OrderOfDistinct(remote);
  }

  // --- A row that only looks active -----------------------------------------------------

  predicate ActiveFor(job: Job, id: nat, version: nat) {
    job.kind == TagDocument(id) && job.Active() && job.version == version
  }

  ghost predicate HasCurrent(s: State, id: nat, version: nat) {
    exists j :: j in s.jobs && ActiveFor(s.jobs[j], id, version)
  }

  /** Queueing gives a document an assignment of the given configuration exactly
      when no active row of another configuration stands in for it. */
  lemma QueuedForVersionIff(s: State, id: nat, version: nat)
    requires id in s.docs && FreshIds(s)
    ensures HasCurrent(QueueTagging(s, id, version), id, version) <==> !s.HasActive(TagDocument(id)) || HasCurrent(s, id, version)
  {
    var t := QueueTagging(s, id, version);
    if s.HasActive(TagDocument(id)) {
      assert t.jobs == s.jobs;
    } else {
      assert t.jobs[s.nextJob] == NewJob(TagDocument(id), version);
      assert ActiveFor(t.jobs[s.nextJob], id, version);
    }
  }

  // A superseded tagging fails and is put back; then the document is linked again.
  const STOOD_IN: seq<Event> :=
    [Configure(7), EvLink(CONTRACT, None), EvBeginTag(1, ""), Configure(8), EvEndTag(1, NotVerified("UNREACHABLE")), EvLink(CONTRACT, Some(0))]

  lemma ReconfigureThenFail() returns (s: State, t: State)
    ensures Does(TAGGING, Configure(8), s) && Does(s, EvEndTag(1, NotVerified("UNREACHABLE")), t)
    ensures t.ConfigIs(2) && t.docs.Keys == {0} && t.docs[0].ActiveLinkTo(5) && t.docs[0].linkOriginManual && t.jobs.Keys == {0, 1, 2}
    ensures t.jobs[1].kind == TagDocument(0) && t.jobs[1].status.Pending? && t.jobs[1].version == 1
    ensures t.jobs[0].kind.SyncPolicy? && t.jobs[2].kind.SyncPolicy?
  {
    s := SetTag(TAGGING, 8, "", None, "");
    assert s.jobs[1].kind == TagDocument(0) && s.docs == TAGGING.docs;
    assert s.jobs.Keys == {0, 1, 2} && s.jobs[0].kind.SyncPolicy? && s.jobs[2].kind.SyncPolicy?;
    t := EndTag(s, 1, NotVerified("UNREACHABLE"));
  }

  lemma RelinkQueuesNothing(s: State) returns (t: State)
    requires s.ConfigIs(2) && s.docs.Keys == {0} && s.docs[0].ActiveLinkTo(5) && s.jobs.Keys == {0, 1, 2}
    requires s.jobs[1].kind == TagDocument(0) && s.jobs[1].status.Pending? && s.jobs[1].version == 1
    requires s.jobs[0].kind.SyncPolicy? && s.jobs[2].kind.SyncPolicy?
    ensures Does(s, EvLink(CONTRACT, Some(0)), t) && t.ConfigIs(2) && !HasCurrent(t, 0, 2)
    ensures 0 in t.docs && t.docs[0].ActiveLink() && t.docs[0].linkOriginManual && t.docs[0].tagging == Some(TaggingPending)
  {
    t := LinkDocument(s, CONTRACT, Some(0));
    assert s.HasActive(TagDocument(0));
    assert t.jobs == s.jobs;
  }

  lemma StoodInStates() returns (s: seq<State>)
    ensures Traced(s, STOOD_IN) && s[0] == EMPTY
    ensures var t := s[6];
      && t.ConfigIs(2) && 0 in t.docs && t.docs[0].linkOriginManual && t.docs[0].tagging == Some(TaggingPending)
      && !HasCurrent(t, 0, 2)
  {
    hide Does, NewManualDoc, HasCurrent;
    ConfigureThenLink();
    var s4, s5 := ReconfigureThenFail();
    var s6 := RelinkQueuesNothing(s5);
    s := [EMPTY, CONFIGURED, LINKED, TAGGING, s4, s5, s6];
  }

  /** Linking does not always queue the configured tag: here the active row is
      one of the previous configuration, which the worker will only skip. */
  lemma StaleRowStandsIn()
    ensures Initial(EMPTY) && Feasible(EMPTY, STOOD_IN)
    ensures var t := After(EMPTY, STOOD_IN);
      && t.ConfigIs(2) && 0 in t.docs && t.docs[0].linkOriginManual && t.docs[0].tagging == Some(TaggingPending)
      && !HasCurrent(t, 0, 2)
  {
    var s := StoodInStates();
    TracedFeasible(s, STOOD_IN);
  }
}
