// Whole runs of the tag synchronisation: what holds in every reachable state.
module TagRuns {
  import opened Wrappers
  import opened TagModel
  import opened TagInvariants
  import opened TagOutbox

  // --- APPLIED belongs to the configured tag -----------------------------------

  function CurrentTag(s: State): Option<int> { if s.config.Some? then Some(s.config.value.tagId) else None }

  /** No tag: no tagging state. A tag: a manual link that is APPLIED was verified for it. */
  predicate TaggingFits(tag: Option<int>, doc: Doc) {
    doc.ActiveLink() ==>
      if tag.None? then doc.tagging.None?
      else doc.linkOriginManual && doc.tagging == Some(Applied) ==> doc.verifiedFor == tag
  }

  ghost predicate TaggingInv(s: State) {
    forall id :: id in s.docs ==> TaggingFits(CurrentTag(s), s.docs[id])
  }

  /** The end of a tagging whose tag is no longer the configured one. */
  predicate Drifts(s: State, e: Event) {
    e.EvEndTag? && e.job in s.inflight && e.job in s.jobs && s.jobs[e.job].kind.TagDocument? && s.jobs[e.job].kind.doc in s.docs &&
    var doc := s.docs[s.jobs[e.job].kind.doc];
    doc.ActiveLink() &&
    (s.config.None? ||
     (e.result.Verified? && doc.linkOriginManual && s.config.value.tagId != s.inflight[e.job].tagId))
  }

  /** The reconciliation never touches the tagging columns. */
  ghost predicate TaggingKept(before: map<nat, Doc>, after: map<nat, Doc>) {
    && before.Keys <= after.Keys
    && (forall id :: id in before ==>
          && after[id].tagging == before[id].tagging && after[id].verifiedFor == before[id].verifiedFor
          && after[id].linkOriginManual == before[id].linkOriginManual && after[id].storageType == before[id].storageType
          && (before[id].archived ==> after[id].archived))
    && (forall id :: id in after && id !in before ==> after[id].tagging.None?)
  }

  lemma PutKeepsTagging(docs: map<nat, Doc>, id: nat, doc: Doc)
    requires if id in docs
      then doc == docs[id].(fileName := doc.fileName, documentDate := doc.documentDate, mimeType := doc.mimeType, linkOriginTag := doc.linkOriginTag, archived := doc.archived)
           && (docs[id].archived ==> doc.archived)
      else doc.tagging.None?
    ensures TaggingKept(docs, docs[id := doc])
  {
  }

  lemma MarkKeepsTagging(docs: map<nat, Doc>, ref: int)
    ensures TaggingKept(docs, map id | id in docs :: if docs[id].ActiveLinkTo(ref) then docs[id].(linkOriginTag := true) else docs[id])
    ensures TaggingKept(docs, docs)
  {
  }

  lemma WriteRemoteKeepsTagging(s: State, run: Run, ref: int)
    requires run.Valid() && ref in run.remote && s.nextDoc !in s.docs
    ensures TaggingKept(s.docs, WriteRemote(s, run, ref).0.docs)
  {
    hide DeriveTagLinkMetadata, FallbackName, TaggingKept;
    var t := WriteRemote(s, run, ref).0;
    MarkKeepsTagging(s.docs, ref);
    if ref in run.byRef {
      if t != s {
        PutKeepsTagging(s.docs, run.byRef[ref], t.docs[run.byRef[ref]]);
      }
    } else if !s.Linked(ref) {
      PutKeepsTagging(s.docs, s.nextDoc, NewTagDoc(ref, run.remote[ref]));
    }
  }

  lemma LocalStepKeepsTagging(s: State, run: Run)
    requires run.Valid() && run.phase.Walking? && run.j < |run.locals|
    ensures TaggingKept(s.docs, LocalStep(s, run).0.docs)
  {
    hide TaggingKept, LostTag;
    var id := run.locals[run.j];
    TaggingKeptItself(s.docs);
    if id in s.docs { PutKeepsTagging(s.docs, id, DropTagOrigin(s.docs[id], run.snap[id])); }
  }

  lemma TaggingKeptItself(docs: map<nat, Doc>)
    ensures TaggingKept(docs, docs)
  {
  }

  lemma RunStepKeepsTagging(s: State, run: Run)
    requires run.Valid() && s.nextDoc !in s.docs
    ensures TaggingKept(s.docs, RunStep(s, run).0.docs)
  {
    hide WriteRemote, LocalStep;
    if run.phase.Walking? {
      if run.i < |run.order| {
        WriteRemoteKeepsTagging(s, run, run.order[run.i]);
      } else if run.j < |run.locals| {
        LocalStepKeepsTagging(s, run);
      }
    }
  }

  lemma {:induction false} RunAllKeepsTagging(s: State, run: Run)
    requires run.Valid() && LinksInv(s) && SnapshotHolds(s, run) && CountsKept(run)
    ensures TaggingKept(s.docs, RunAll(s, run).0.docs)
    decreases run.Left()
  {
    if run.phase.Walking? {
      var next := RunStep(s, run);
      RunStepKeepsLinks(s, run);
      RunStepKeepsTagging(s, run);
      RunAllKeepsTagging(next.0, next.1);
    }
  }

  lemma QueueTaggingFits(s: State, id: nat, version: nat)
    requires id in s.docs && s.config.Some? && TaggingInv(s)
    ensures TaggingInv(QueueTagging(s, id, version))
  {
    hide QueueTagging;
  }

  lemma {:induction false} RetryRowsFits(s: State, ids: seq<nat>, only: Option<nat>, version: nat)
    requires s.config.Some? && TaggingInv(s)
    ensures var t := RetryRows(s, ids, only, version); t.config == s.config && TaggingInv(t)
    decreases |ids|
  {
    if ids != [] {
      var n := |ids| - 1;
      RetryRowsFits(s, ids[..n], only, version);
      var before := RetryRows(s, ids[..n], only, version);
      if ids[n] in before.docs { QueueTaggingFits(before, ids[n], version); }
    }
  }

  lemma {:induction false} BackfillRowsFits(s: State, ids: seq<nat>, version: nat)
    requires s.config.Some? && TaggingInv(s)
    ensures var t := BackfillRows(s, ids, version); t.config == s.config && TaggingInv(t)
    decreases |ids|
  {
    if ids != [] {
      var n := |ids| - 1;
      BackfillRowsFits(s, ids[..n], version);
      var before := BackfillRows(s, ids[..n], version);
      if ids[n] in before.docs { QueueTaggingFits(before, ids[n], version); }
    }
  }

  lemma ManualOriginFits(s: State, id: nat, meta: RemoteDoc)
    requires id in s.docs && TaggingInv(s)
    ensures TaggingInv(ApplyManualLinkOrigin(s, id, meta))
  {
    hide QueueTagging;
  }

  lemma TaggingKeptFits(s: State, t: State)
    requires TaggingInv(s) && TaggingKept(s.docs, t.docs) && CurrentTag(t) == CurrentTag(s)
    ensures TaggingInv(t)
  {
    forall id | id in t.docs ensures TaggingFits(CurrentTag(t), t.docs[id]) {
      assert id in s.docs ==> TaggingFits(CurrentTag(s), s.docs[id]);
    }
  }

  lemma FinishSyncFits(s: State, id: nat, version: nat, name: string, total: nat, now: int, run: Run, rows: seq<nat>)
    requires id in s.jobs && TaggingInv(s)
    ensures TaggingInv(FinishSync(s, id, version, name, total, now, run, rows))
  {
    forall t: State | t.docs == s.docs && CurrentTag(t) == CurrentTag(s) && t.config.Some?
      ensures TaggingInv(BackfillRows(t, rows, version))
    {
      BackfillRowsFits(t, rows, version);
    }
  }

  lemma SyncRunFits(s: State, id: nat, remote: seq<RemoteDoc>, rows: seq<nat>)
    requires LinksInv(s) && TaggingInv(s) && id in s.inflight
    ensures TaggingInv(SyncRun(s, id, remote, rows).0)
  {
    hide OriginsOk, OneRowPerRef, TaggingFits;
    var idle := s.(inflight := s.inflight - {id});
    var start := StartRun(s.docs, s.inflight[id].version, remote, rows);
    StartRunSnapshotHolds(s, s.inflight[id].version, remote, rows);
    assert SnapshotHolds(idle, start) && LinksInv(idle);
    RunAllKeepsTagging(idle, start);
    TaggingKeptFits(s, RunAll(idle, start).0);
  }

  lemma EndSyncFits(s: State, id: nat, answer: SyncAnswer, now: int, rows: seq<nat>)
    requires LinksInv(s) && TaggingInv(s)
    ensures TaggingInv(EndSync(s, id, answer, now, rows))
  {
    hide LinksInv, FinishSync, TaggingFits;
    if id in s.inflight && id in s.jobs && answer.Listed? {
      SyncRunFits(s, id, answer.remote, rows);
      var done := SyncRun(s, id, answer.remote, rows);
      FinishSyncFits(done.0, id, s.inflight[id].version, answer.name, |answer.remote|, now, done.1, rows);
    }
  }

  /** A worker's confirmation is kept in step with the configuration exactly
      when the configured tag did not change while the worker was at work. */
  lemma EndTagFitsIff(s: State, id: nat, result: TagResult)
    requires TaggingInv(s) && Enabled(s, EvEndTag(id, result))
    ensures TaggingInv(EndTag(s, id, result)) <==> !Drifts(s, EvEndTag(id, result))
  {
    if s.jobs[id].kind.doc in s.docs {
      var d := s.jobs[id].kind.doc;
      var t := EndTag(s, id, result);
      assert t.docs == s.docs[d := TagOutcome(s.docs[d], s.inflight[id].tagId, result)];
      assert TaggingFits(CurrentTag(s), t.docs[d]) <==> !Drifts(s, EvEndTag(id, result));
    }
  }

  lemma ConfigChangeFits(s: State, e: Event)
    requires LinksInv(s) && TaggingInv(s) && (e.EvSetTag? || e.EvRemoveTag? || e.EvRemoveDocument?)
    ensures TaggingInv(Step(s, e))
  {
    hide OneRowPerRef;
    match e
    case EvSetTag(tagId, _, _, _) =>
      assert s.config.None? ==> forall id :: id in s.docs && s.docs[id].ActiveLink() ==> TaggingFits(None, s.docs[id]);
    case EvRemoveTag => assert s.config.Some? && !s.policyArchived ==> forall id :: id in s.docs ==> OriginsOk(s.docs[id]);
    case EvRemoveDocument(id) =>
  }

  lemma LinkFits(s: State, meta: RemoteDoc, found: Option<nat>)
    requires TaggingInv(s)
    ensures TaggingInv(LinkDocument(s, meta, found))
  {
    hide ApplyManualLinkOrigin;
    if found.Some? {
      if found.value in s.docs { ManualOriginFits(s, found.value, meta); }
    } else {
      ManualOriginFits(s.PutDoc(s.nextDoc, NewManualDoc(meta)).(nextDoc := s.nextDoc + 1), s.nextDoc, meta);
    }
  }

  lemma StepKeepsTagging(s: State, e: Event)
    requires LinksInv(s) && TaggingInv(s) && Enabled(s, e) && !Drifts(s, e)
    ensures TaggingInv(Step(s, e))
  {
    hide LinksInv, SetTag, RemoveTag, RetryRows, LinkDocument, RemoveDocument, EndSync, EndTag, Drifts, Enabled;
    match e
    case EvSetTag(_, _, _, _) => ConfigChangeFits(s, e);
    case EvRemoveTag => ConfigChangeFits(s, e);
    case EvRequestSync =>
    case EvRetryTagging(only, rows) => if s.config.Some? { RetryRowsFits(s, rows, only, s.config.value.version); }
    case EvLink(meta, found) => LinkFits(s, meta, found);
    case EvRemoveDocument(_) => ConfigChangeFits(s, e);
    case EvTick(_) =>
    case EvBeginSync(_, _) =>
    case EvEndSync(job, answer, now, rows) => EndSyncFits(s, job, answer, now, rows);
    case EvBeginTag(_, _) =>
    case EvEndTag(job, result) => EndTagFitsIff(s, job, result);
    case EvArchivePolicy =>
  }

  // --- Runs -------------------------------------------------------------------

  /** The store as the migration left it: manual links only, no tag, no jobs. */
  ghost predicate Initial(s: State) {
    && s.config.None? && s.jobs == map[] && s.inflight == map[]
    && LinksInv(s) && TaggingInv(s)
  }

  lemma PrefixAfter(s: State, es: seq<Event>, k: nat)
    requires k < |es|
    ensures After(s, es[..k + 1]) == Step(After(s, es[..k]), es[k])
  {
    assert es[..k + 1][..k] == es[..k];
  }

  lemma {:induction false} LinksAndJobsAlong(s: State, es: seq<Event>, k: nat)
    requires LinksInv(s) && JobsInv(s) && Feasible(s, es) && k <= |es|
    ensures LinksInv(After(s, es[..k])) && JobsInv(After(s, es[..k]))
  {
    hide Step, Enabled, LinksInv, JobsInv;
    if k > 0 {
      LinksAndJobsAlong(s, es, k - 1);
      PrefixAfter(s, es, k - 1);
      StepKeepsLinks(After(s, es[..k - 1]), es[k - 1]);
      StepKeepsJobs(After(s, es[..k - 1]), es[k - 1], SyncPolicy);
    }
  }

  lemma ReachableLinksAndJobs(s: State, es: seq<Event>, k: nat)
    requires Initial(s) && Feasible(s, es) && k <= |es|
    ensures LinksInv(After(s, es[..k])) && JobsInv(After(s, es[..k]))
  {
    LinksAndJobsAlong(s, es, k);
  }

  /** In every reachable state each active Paperless link has an origin, no two
      active rows link the same document, and without a tag every link is manual. */
  lemma ReachableLinks(s: State, es: seq<Event>)
    requires Initial(s) && Feasible(s, es)
    ensures var t := After(s, es);
      && (forall id :: id in t.docs && t.docs[id].ActiveLink() ==> t.docs[id].linkOriginManual || t.docs[id].linkOriginTag)
      && (forall a, b :: a in t.docs && b in t.docs && t.docs[a].ActiveLink() && t.docs[b].ActiveLink() && t.docs[a].storageRef == t.docs[b].storageRef ==> a == b)
      && (t.config.None? ==> NoTagOrigins(t.docs))
  {
    ReachableLinksAndJobs(s, es, |es|);
    assert es[..|es|] == es;
  }

  /** In every reachable state the retry budget is kept, a row handled
      maxRetries + 1 times is settled for good, no row is handled more often,
      and a completed sync has counted every remote document. */
  lemma ReachableRetries(s: State, es: seq<Event>, id: nat)
    requires Initial(s) && Feasible(s, es) && id in After(s, es).jobs
    ensures var job := After(s, es).jobs[id];
      && job.retryCount <= job.maxRetries
      && job.handlings <= job.maxRetries + 1
      && (job.handlings == job.maxRetries + 1 ==> !job.Active() && id !in After(s, es).inflight)
      && (job.kind.SyncPolicy? && job.status.Completed? ==> job.progress.total == Some(job.progress.processed))
  {
    ReachableLinksAndJobs(s, es, |es|);
    assert es[..|es|] == es;
    assert JobOk(id, After(s, es).jobs[id], After(s, es).nextJob);
  }

  ghost predicate NeverRecreates(s: State, es: seq<Event>, task: JobKind) {
    forall k :: 0 <= k < |es| ==> !Recreates(After(s, es[..k]), es[k], task)
  }

  lemma {:induction false} CurrentRowsAlong(s: State, es: seq<Event>, task: JobKind, k: nat)
    requires LinksInv(s) && JobsInv(s) && CurrentRowsUnique(s, task)
    requires Feasible(s, es) && NeverRecreates(s, es, task) && k <= |es|
    ensures CurrentRowsUnique(After(s, es[..k]), task)
  {
    hide Step, Enabled, LinksInv, JobsInv, CurrentRowsUnique, Recreates;
    if k > 0 {
      CurrentRowsAlong(s, es, task, k - 1);
      LinksAndJobsAlong(s, es, k - 1);
      PrefixAfter(s, es, k - 1);
      StepKeepsJobs(After(s, es[..k - 1]), es[k - 1], task);
    }
  }

  /** Unless a deleted configuration is created again while a handler may still put
      back an earlier row for the task, at most one active row for the task carries
      the current version - put-backs of superseded rows included. */
  lemma ReachableCurrentRowsUnique(s: State, es: seq<Event>, task: JobKind)
    requires Initial(s) && Feasible(s, es) && NeverRecreates(s, es, task)
    ensures OneCurrentRow(After(s, es), task)
  {
    CurrentRowsAlong(s, es, task, |es|);
    assert es[..|es|] == es;
  }

  ghost predicate NeverDrifts(s: State, es: seq<Event>) {
    forall k :: 0 <= k < |es| ==> !Drifts(After(s, es[..k]), es[k])
  }

  lemma {:induction false} ReachableTaggingFits(s: State, es: seq<Event>, k: nat)
    requires Initial(s) && Feasible(s, es) && NeverDrifts(s, es) && k <= |es|
    ensures TaggingInv(After(s, es[..k]))
  {
    hide Step, Enabled, LinksInv, RowsOk, TaggingInv, Drifts;
    if k > 0 {
      ReachableTaggingFits(s, es, k - 1);
      ReachableLinksAndJobs(s, es, k - 1);
      PrefixAfter(s, es, k - 1);
      StepKeepsTagging(After(s, es[..k - 1]), es[k - 1]);
    }
  }

  ghost predicate AlwaysFits(s: State, es: seq<Event>) {
    forall k :: 0 <= k <= |es| ==> TaggingInv(After(s, es[..k]))
  }

  /** Over whole runs APPLIED stays in step with the configuration exactly when no
      confirmation comes late. */
  lemma AlwaysFitsIff(s: State, es: seq<Event>)
    requires Initial(s) && Feasible(s, es)
    ensures AlwaysFits(s, es) <==> NeverDrifts(s, es)
  {
    hide Step, Enabled, TaggingInv, Drifts;
    if NeverDrifts(s, es) {
      forall k: nat | k <= |es| ensures TaggingInv(After(s, es[..k])) { ReachableTaggingFits(s, es, k); }
    }
    if AlwaysFits(s, es) {
      forall k: nat | k < |es| ensures !Drifts(After(s, es[..k]), es[k]) {
        PrefixAfter(s, es, k);
        LateMeansUnfit(After(s, es[..k]), es[k]);
      }
    }
  }

  lemma LateMeansUnfit(s: State, e: Event)
    requires TaggingInv(s) && Enabled(s, e) && TaggingInv(Step(s, e))
    ensures !Drifts(s, e)
  {
    hide EndTag, TaggingInv;
    if e.EvEndTag? { EndTagFitsIff(s, e.job, e.result); }
  }

  /** Every tagging ends right after it began. */
  predicate HandledAtOnce(es: seq<Event>) {
    forall k :: 0 <= k < |es| && es[k].EvEndTag? ==> k > 0 && es[k - 1].EvBeginTag? && es[k - 1].job == es[k].job
  }

  lemma AtOnceIsCalm(s: State, job: nat, baseUrl: string, result: TagResult)
    requires Enabled(s, EvBeginTag(job, baseUrl)) && Enabled(BeginTag(s, job, baseUrl), EvEndTag(job, result))
    ensures !Drifts(BeginTag(s, job, baseUrl), EvEndTag(job, result))
  {
  }

  lemma HandledAtOnceNeverDrifts(s: State, es: seq<Event>)
    requires Feasible(s, es) && HandledAtOnce(es)
    ensures NeverDrifts(s, es)
  {
    hide BeginTag, Enabled, After;
    forall k | 0 <= k < |es| ensures !Drifts(After(s, es[..k]), es[k]) {
      if es[k].EvEndTag? {
        PrefixAfter(s, es, k - 1);
        assert Enabled(After(s, es[..k - 1]), es[k - 1]);
        assert Enabled(After(s, es[..k]), es[k]);
        AtOnceIsCalm(After(s, es[..k - 1]), es[k].job, es[k - 1].baseUrl, es[k].result);
      }
    }
  }

  /** With each tagging handled in one go, in every reachable state an active
      manual link that is APPLIED was verified for the tag configured now. */
  lemma AppliedMeansCurrentTag(s: State, es: seq<Event>, id: nat)
    requires Initial(s) && Feasible(s, es) && HandledAtOnce(es)
    requires var t := After(s, es); id in t.docs && t.docs[id].ActiveLink() && t.docs[id].linkOriginManual && t.docs[id].tagging == Some(Applied)
    ensures var t := After(s, es); t.config.Some? && t.docs[id].verifiedFor == Some(t.config.value.tagId)
  {
    HandledAtOnceNeverDrifts(s, es);
    ReachableTaggingFits(s, es, |es|);
    assert es[..|es|] == es;
    assert TaggingFits(CurrentTag(After(s, es)), After(s, es).docs[id]);
  }
}
