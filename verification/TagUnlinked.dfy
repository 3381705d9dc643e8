// Job rows of a document that is no link any more: none is added, and none that
// is settled comes back unless a handler puts it back.
module TagUnlinked {
  import opened Wrappers
  import opened TagModel
  import opened TagInvariants
  import opened TagOutbox
  import opened TagReconcile
  import opened TagRuns
  import opened TagDelivery

  predicate NotLinked(docs: map<nat, Doc>, d: nat) { d in docs && !docs[d].ActiveLink() }

  /** A row that is active or may be put back. */
  predicate Alive(jobs: map<nat, Job>, inflight: map<nat, Attempt>, j: nat, task: JobKind) {
    j in jobs && jobs[j].kind == task && (jobs[j].Active() || (j in inflight && HasRetries(jobs[j])))
  }

  /** Rows for the task only die. */
  ghost predicate OnlyDie(s: State, t: State, task: JobKind) {
    forall j :: Alive(t.jobs, t.inflight, j, task) ==> Alive(s.jobs, s.inflight, j, task) && t.jobs[j].version == s.jobs[j].version
  }

  // --- One operation ----------------------------------------------------------------------

  lemma ServedOnlyDies(s: State, t: State, version: nat, chosen: set<nat>, d: nat)
    requires Served(s, t, version, chosen) && d !in chosen && NotLinked(s.docs, d)
    ensures OnlyDie(s, t, TagDocument(d)) && NotLinked(t.docs, d)
  {
    forall j | Alive(t.jobs, t.inflight, j, TagDocument(d))
      ensures Alive(s.jobs, s.inflight, j, TagDocument(d)) && t.jobs[j].version == s.jobs[j].version
    {
      assert j in s.jobs || NewAssignment(s, t.jobs[j], version, chosen);
    }
  }

  lemma RetryOnlyDies(s: State, only: Option<nat>, rows: seq<nat>, d: nat)
    requires JobsInv(s) && Enumerates(rows, s.docs.Keys) && NotLinked(s.docs, d)
    ensures var t := RetryTagging(s, only, rows); OnlyDie(s, t, TagDocument(d)) && NotLinked(t.docs, d)
  {
    if !s.policyArchived && s.config.Some? {
      hide RetryTagging, Served, JobsInv;
      RetryServesExactly(s, only, rows);
      ServedOnlyDies(s, RetryTagging(s, only, rows), s.config.value.version, RetryTargets(s, only), d);
    }
  }

  lemma FinishOnlyDies(s: State, id: nat, version: nat, name: string, total: nat, now: int, run: Run, rows: seq<nat>, d: nat)
    requires id in s.jobs && s.jobs[id].kind.SyncPolicy? && FreshIds(s) && Distinct(rows) && NotLinked(s.docs, d)
    ensures var t := FinishSync(s, id, version, name, total, now, run, rows); OnlyDie(s, t, TagDocument(d)) && NotLinked(t.docs, d)
  {
    hide BackfillRows, Served;
    forall t: State | FreshIds(t) && t.docs == s.docs
      ensures OnlyDie(t, BackfillRows(t, rows, version), TagDocument(d)) && NotLinked(BackfillRows(t, rows, version).docs, d)
    {
      BackfillRowsServe(t, rows, version);
      ServedOnlyDies(t, BackfillRows(t, rows, version), version, Backfilled(t, rows), d);
    }
  }

  lemma EndSyncOnlyDies(s: State, id: nat, answer: SyncAnswer, now: int, rows: seq<nat>, d: nat)
    requires LinksInv(s) && JobsInv(s) && Enabled(s, EvEndSync(id, answer, now, rows)) && NotLinked(s.docs, d)
    ensures var t := EndSync(s, id, answer, now, rows); OnlyDie(s, t, TagDocument(d)) && NotLinked(t.docs, d)
  {
    hide OriginsOk, OneRowPerRef, FinishSync, RunAll, StartRun, RowsOk;
    IdsAreFresh(s);
    if answer.Listed? {
      var version := s.inflight[id].version;
      var idle := s.(inflight := s.inflight - {id});
      ReconcileKeepsUnlinked(idle, version, answer.remote, rows, d);
      var done := Reconcile(idle, version, answer.remote, rows);
      FinishOnlyDies(done.0, id, version, answer.name, |answer.remote|, now, done.1, rows, d);
    }
  }

  lemma ReconcileKeepsUnlinked(s: State, version: nat, remote: seq<RemoteDoc>, rows: seq<nat>, d: nat)
    requires LinksInv(s) && NotLinked(s.docs, d)
    ensures NotLinked(Reconcile(s, version, remote, rows).0.docs, d)
  {
    hide RunAll, LinksInv;
    StartRunSnapshotHolds(s, version, remote, rows);
    RunAllKeepsTagging(s, StartRun(s.docs, version, remote, rows));
  }

  lemma LinkOnlyDies(s: State, meta: RemoteDoc, found: Option<nat>, d: nat)
    requires LinksInv(s) && JobsInv(s) && Enabled(s, EvLink(meta, found)) && NotLinked(s.docs, d)
    ensures var t := LinkDocument(s, meta, found); OnlyDie(s, t, TagDocument(d)) && NotLinked(t.docs, d)
  {
    hide OriginsOk, OneRowPerRef, QueueTagging, RowsOk;
    IdsAreFresh(s);
    var id := if found.Some? then found.value else s.nextDoc;
    assert id != d;
    forall t: State | FreshIds(t) && t.jobs == s.jobs && t.inflight == s.inflight && id in t.docs && d in t.docs && t.docs[d] == s.docs[d]
      ensures forall v :: var u := QueueTagging(t, id, v); OnlyDie(s, u, TagDocument(d)) && NotLinked(u.docs, d)
    {
      forall v ensures var u := QueueTagging(t, id, v); OnlyDie(s, u, TagDocument(d)) && NotLinked(u.docs, d) {
        QueueOtherOnlyDies(t, id, v, d);
      }
    }
  }

  lemma QueueOtherOnlyDies(s: State, id: nat, version: nat, d: nat)
    requires FreshIds(s) && id in s.docs && id != d && NotLinked(s.docs, d)
    ensures var u := QueueTagging(s, id, version); OnlyDie(s, u, TagDocument(d)) && NotLinked(u.docs, d)
  {
  }

  lemma SettingOnlyDies(s: State, e: Event, d: nat)
    requires (e.EvSetTag? || e.EvRemoveTag? || e.EvRemoveDocument?) && NotLinked(s.docs, d) && FreshIds(s)
    ensures OnlyDie(s, Step(s, e), TagDocument(d)) && NotLinked(Step(s, e).docs, d)
  {
  }

  lemma StepOnlyDies(s: State, e: Event, d: nat)
    requires LinksInv(s) && JobsInv(s) && Enabled(s, e) && NotLinked(s.docs, d)
    ensures OnlyDie(s, Step(s, e), TagDocument(d)) && NotLinked(Step(s, e).docs, d)
  {
    hide LinksInv, JobsInv, SetTag, RemoveTag, RemoveDocument, RetryTagging, LinkDocument, EndSync;
    IdsAreFresh(s);
    match e
    case EvSetTag(_, _, _, _) => SettingOnlyDies(s, e, d);
    case EvRemoveTag => SettingOnlyDies(s, e, d);
    case EvRequestSync =>
    case EvRetryTagging(only, rows) => RetryOnlyDies(s, only, rows, d);
    case EvLink(meta, found) => LinkOnlyDies(s, meta, found, d);
    case EvRemoveDocument(_) => SettingOnlyDies(s, e, d);
    case EvTick(_) =>
    case EvBeginSync(_, _) =>
    case EvEndSync(job, answer, now, rows) => EndSyncOnlyDies(s, job, answer, now, rows, d);
    case EvBeginTag(_, _) =>
    case EvEndTag(job, result) => EndTagOnlyDies(s, job, result, d);
    case EvArchivePolicy =>
  }

  lemma EndTagOnlyDies(s: State, id: nat, result: TagResult, d: nat)
    requires JobsInv(s) && Enabled(s, EvEndTag(id, result)) && NotLinked(s.docs, d)
    ensures OnlyDie(s, EndTag(s, id, result), TagDocument(d)) && NotLinked(EndTag(s, id, result).docs, d)
  {
    assert AttemptOk(s.jobs[id], s.inflight[id]);
  }

  // --- Any run -------------------------------------------------------------------------------

  /** No two rows for the task that are alive carry the same version. */
  ghost predicate VersionsDiffer(s: State, task: JobKind) {
    forall a, b :: Alive(s.jobs, s.inflight, a, task) && Alive(s.jobs, s.inflight, b, task) && s.jobs[a].version == s.jobs[b].version ==> a == b
  }

  lemma {:induction false} VersionsDifferAlong(s: State, es: seq<Event>, d: nat, k: nat)
    requires LinksInv(s) && JobsInv(s) && Feasible(s, es) && k <= |es| && NotLinked(s.docs, d) && VersionsDiffer(s, TagDocument(d))
    ensures NotLinked(After(s, es[..k]).docs, d) && VersionsDiffer(After(s, es[..k]), TagDocument(d))
  {
    hide LinksInv, JobsInv, Enabled, Step, NotLinked, VersionsDiffer;
    if k > 0 {
      VersionsDifferAlong(s, es, d, k - 1);
      LinksAndJobsAlong(s, es, k - 1);
      PrefixAfter(s, es, k - 1);
      var before := After(s, es[..k - 1]);
      StepOnlyDies(before, es[k - 1], d);
      DyingKeepsDiffering(before, After(s, es[..k]), TagDocument(d));
    }
  }

  lemma DyingKeepsDiffering(s: State, t: State, task: JobKind)
    requires VersionsDiffer(s, task) && OnlyDie(s, t, task)
    ensures VersionsDiffer(t, task)
  {
    hide Alive;
  }
}
